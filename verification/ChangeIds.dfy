/**
 Reading the change id a human gives a command: a number however many zeros it is written with, a
 full folder name, or that name without its number.
 */
module ChangeIds {
  import opened Wrappers
  import opened Text

  datatype ChangeId = Number(digits: string) | Folder(name: string) | Slug(slug: string)

  datatype Parsed = Ok(id: ChangeId) | Err(input: string, slug: bool)

  /** The characters with the Unicode property White_Space, which trimming removes. */
  predicate IsWhite(c: char) {
    || '\U{9}' <= c <= '\U{D}' || c == ' ' || c == '\U{85}' || c == '\U{A0}' || c == '\U{1680}'
    || '\U{2000}' <= c <= '\U{200A}' || c == '\U{2028}' || c == '\U{2029}' || c == '\U{202F}'
    || c == '\U{205F}' || c == '\U{3000}'
  }

  /** How many blanks `s` starts with. */
  function BlankRun(s: string): (n: nat)
    ensures n <= |s| && (forall k :: 0 <= k < n ==> IsWhite(s[k])) && (n < |s| ==> !IsWhite(s[n]))
  {
    if s == [] || !IsWhite(s[0]) then 0 else 1 + BlankRun(s[1..])
  }

  function TrimEnd(s: string): (t: string)
    ensures t <= s && (forall k :: |t| <= k < |s| ==> IsWhite(s[k]))
    ensures t == [] || !IsWhite(Last(t))
  {
    if s == [] || !IsWhite(Last(s)) then s else TrimEnd(Init(s))
  }

  function Trim(s: string): string {
    TrimEnd(s[BlankRun(s)..])
  }

  predicate IsDigits(text: string) {
    text != [] && AllDigits(text)
  }

  predicate IsNameChar(c: char) {
    'a' <= c <= 'z' || IsDigit(c)
  }

  predicate IsNamePart(part: string) {
    part != [] && forall k :: 0 <= k < |part| ==> IsNameChar(part[k])
  }

  predicate IsName(text: string) {
    text != [] && forall p :: p in Split(text, '-') ==> IsNamePart(p)
  }

  function ParseChangeId(input: string, slug: bool): Parsed {
    var trimmed := Trim(input);
    if IsDigits(trimmed) then Ok(Number(trimmed))
    else if IsName(trimmed) then Ok(if slug then Slug(trimmed) else Folder(trimmed))
    else Err(input, slug)
  }

  /** A name read one character at a time; a dash may not come first, last, or after a dash. */
  predicate Walks(text: string, partOpen: bool) {
    if text == [] then partOpen
    else if text[0] == '-' then partOpen && Walks(text[1..], false)
    else IsNameChar(text[0]) && Walks(text[1..], true)
  }

  predicate NameChars(part: string) {
    forall k :: 0 <= k < |part| ==> IsNameChar(part[k])
  }

  lemma NameCharsCons(c: char, part: string)
    ensures NameChars([c] + part) <==> IsNameChar(c) && NameChars(part)
  {
    var all := [c] + part;
    assert all[0] == c && forall k :: 0 <= k < |part| ==> all[1..][k] == part[k];
    if NameChars(all) {
      forall k | 0 <= k < |part| ensures IsNameChar(part[k]) { assert all[k + 1] == part[k]; }
    }
  }

  /** Only the first part may be left open, and only when the walk starts inside one. */
  lemma {:induction false} WalkReadsParts(text: string, partOpen: bool)
    ensures var parts := Split(text, '-');
            Walks(text, partOpen) <==> NameChars(parts[0]) && (partOpen || parts[0] != [])
                                       && forall k :: 1 <= k < |parts| ==> IsNamePart(parts[k])
  {
    if text != [] {
      var rest := Split(text[1..], '-');
      WalkReadsParts(text[1..], text[0] != '-');
      var parts := Split(text, '-');
      if text[0] == '-' {
        assert parts == [[]] + rest;
        assert IsNamePart(rest[0]) <==> NameChars(rest[0]) && rest[0] != [];
        assert forall k :: 1 <= k < |parts| ==> parts[k] == rest[k - 1];
        assert forall k :: 0 <= k < |rest| ==> rest[k] == parts[k + 1];
      } else {
        NameCharsCons(text[0], rest[0]);
        assert forall k :: 1 <= k < |parts| ==> parts[k] == rest[k];
      }
    }
  }

  lemma NamesAreWalked(text: string)
    ensures IsName(text) <==> Walks(text, false)
  {
    var parts := Split(text, '-');
    WalkReadsParts(text, false);
    assert forall k :: 0 <= k < |parts| ==> parts[k] in parts;
    assert IsNamePart(parts[0]) <==> NameChars(parts[0]) && parts[0] != [];
  }

  /** Trimmed input that is all digits is a number; any other name is a slug or a folder; the rest is refused. */
  lemma ParsedForms(input: string, slug: bool)
    ensures var t := Trim(input);
            match ParseChangeId(input, slug)
            case Ok(Number(digits)) => digits == t && IsDigits(t)
            case Ok(Slug(name)) => slug && name == t && Walks(t, false) && !IsDigits(t)
            case Ok(Folder(name)) => !slug && name == t && Walks(t, false) && !IsDigits(t)
            case Err(given, asked) => given == input && asked == slug && !IsDigits(t) && !Walks(t, false)
  {
    NamesAreWalked(Trim(input));
  }

  // ---------- numbers

  function LeadingDigits(folder: string): string {
    folder[..DigitRun(folder)]
  }

  function WithoutLeadingZeros(digits: string): (t: string)
    ensures AllDigits(digits) ==> AllDigits(t)
    ensures t == [] || t[0] != '0'
  {
    if digits != [] && digits[0] == '0' then WithoutLeadingZeros(digits[1..]) else digits
  }

  predicate NamesNumber(number: string, folder: string) {
    var digits := LeadingDigits(folder);
    var rest := folder[|digits|..];
    digits != [] && (rest == [] || rest[0] == '-') && WithoutLeadingZeros(digits) == WithoutLeadingZeros(number)
  }

  predicate NamesSlug(slug: string, folder: string) {
    var digits := LeadingDigits(folder);
    var rest := folder[|digits|..];
    folder == slug || (digits != [] && rest != [] && rest[0] == '-' && rest[1..] == slug)
  }

  predicate Names(id: ChangeId, folder: string) {
    match id
    case Number(number) => NamesNumber(number, folder)
    case Folder(name) => folder == name
    case Slug(slug) => NamesSlug(slug, folder)
  }

  lemma {:induction false} LeadingZeroAddsNothing(digits: string)
    requires AllDigits(digits) && digits != [] && digits[0] == '0'
    ensures Value(digits) == Value(digits[1..])
  {
    if |digits| > 1 {
      LeadingZeroAddsNothing(Init(digits));
      assert Init(digits)[1..] == Init(digits[1..]);
    }
  }

  lemma {:induction false} StrippedValue(digits: string)
    requires AllDigits(digits)
    ensures Value(WithoutLeadingZeros(digits)) == Value(digits)
  {
    if digits != [] && digits[0] == '0' {
      LeadingZeroAddsNothing(digits);
      StrippedValue(digits[1..]);
    }
  }

  lemma {:induction false} NonzeroValue(digits: string)
    requires AllDigits(digits) && digits != [] && digits[0] != '0'
    ensures Value(digits) > 0
  {
    if |digits| > 1 {
      NonzeroValue(Init(digits));
    } else {
      assert digits == [digits[0]];
    }
  }

  /** Without leading zeros, a number is written in one way only. */
  lemma {:induction false} SameValueSameDigits(a: string, b: string)
    requires AllDigits(a) && AllDigits(b)
    requires a == [] || a[0] != '0'
    requires b == [] || b[0] != '0'
    requires Value(a) == Value(b)
    ensures a == b
  {
    if a != [] { NonzeroValue(a); }
    if b != [] { NonzeroValue(b); }
    if a != [] && b != [] {
      assert DigitOf(Last(a)) == DigitOf(Last(b)) && Value(Init(a)) == Value(Init(b));
      SameValueSameDigits(Init(a), Init(b));
      assert a == Init(a) + [Last(a)] && b == Init(b) + [Last(b)];
    }
  }

  /** Stripping leading zeros and comparing text is comparing decimal values, at any length. */
  lemma StrippedTextIsValue(a: string, b: string)
    requires AllDigits(a) && AllDigits(b)
    ensures WithoutLeadingZeros(a) == WithoutLeadingZeros(b) <==> Value(a) == Value(b)
  {
    StrippedValue(a);
    StrippedValue(b);
    if Value(a) == Value(b) {
      SameValueSameDigits(WithoutLeadingZeros(a), WithoutLeadingZeros(b));
    }
  }

  lemma {:induction false} DigitRunOf(ds: string, rest: string)
    requires AllDigits(ds) && (rest == [] || !IsDigit(rest[0]))
    ensures DigitRun(ds + rest) == |ds|
  {
    if ds == [] {
      assert ds + rest == rest;
    } else {
      assert (ds + rest)[1..] == ds[1..] + rest;
      DigitRunOf(ds[1..], rest);
    }
  }

  /** A number id names a folder exactly when the folder is digits of that value, then nothing or a dash. */
  lemma NumberNamesFolder(number: string, folder: string)
    requires IsDigits(number)
    ensures Names(Number(number), folder) <==>
              exists ds: string, rest: string ::
                && folder == ds + rest && IsDigits(ds) && (rest == [] || rest[0] == '-')
                && Value(ds) == Value(number)
  {
    var digits := LeadingDigits(folder);
    var rest := folder[|digits|..];
    assert folder == digits + rest;
    StrippedTextIsValue(digits, number);
    forall ds: string, more: string | folder == ds + more && IsDigits(ds) && (more == [] || more[0] == '-')
      ensures ds == digits && more == rest
    {
      DigitRunOf(ds, more);
    }
  }

  /** A slug id names the folder of that very name, and every folder that is digits, a dash and the slug. */
  lemma SlugNamesFolder(slug: string, folder: string)
    ensures Names(Slug(slug), folder) <==>
              folder == slug || exists ds: string :: IsDigits(ds) && folder == ds + "-" + slug
  {
    var digits := LeadingDigits(folder);
    var rest := folder[|digits|..];
    assert folder == digits + rest;
    if digits != [] && rest != [] && rest[0] == '-' && rest[1..] == slug {
      assert folder == digits + "-" + slug;
    }
    forall ds: string | IsDigits(ds) && folder == ds + "-" + slug ensures ds == digits && rest == "-" + slug {
      assert folder == ds + ("-" + slug);
      DigitRunOf(ds, "-" + slug);
    }
  }
}
