/** The string primitives of .NET that the core relies on: blank tests,
    ordinal case-insensitive comparison, 32-bit integer parsing and
    formatting, and the path part of an absolute URL. */
module Text {
  import opened Wrappers

  // ---------- Blank and empty ----------

  /** `char.IsWhiteSpace`: the Unicode space separators, the line and
      paragraph separators, and U+0009..U+000D, U+0085, U+00A0. */
  predicate IsWhiteSpace(c: char) {
    || '\U{0009}' <= c <= '\U{000D}'
    || c == ' ' || c == '\U{0085}' || c == '\U{00A0}' || c == '\U{1680}'
    || '\U{2000}' <= c <= '\U{200A}'
    || c == '\U{2028}' || c == '\U{2029}' || c == '\U{202F}' || c == '\U{205F}'
    || c == '\U{3000}'
  }

  /** `string.IsNullOrWhiteSpace` on a non-null string. */
  predicate IsBlank(s: string) {
    forall i :: 0 <= i < |s| ==> IsWhiteSpace(s[i])
  }

  /** `string.IsNullOrWhiteSpace`. */
  predicate IsNullOrWhiteSpace(s: Option<string>) {
    s.None? || IsBlank(s.value)
  }

  /** `string.IsNullOrEmpty`. */
  predicate IsNullOrEmpty(s: Option<string>) {
    s.None? || s.value == ""
  }

  // ---------- Ordinal, case-insensitive comparison ----------

  /** Upper-casing as `StringComparison.OrdinalIgnoreCase` does it, one
      character at a time by its simple upper-case mapping: for ASCII, the
      Latin-1 Supplement, and the basic Greek and Cyrillic alphabets. */
  function ToUpper(c: char): (u: char)
    ensures 'a' <= c <= 'z' ==> 'A' <= u <= 'Z' && u as int == c as int - 32
    ensures c as int < 128 && !('a' <= c <= 'z') ==> u == c
    ensures (c as int < 128) == (u as int < 128)
  {
    if 'a' <= c <= 'z' then (c as int - 32) as char
    else if '\U{00E0}' <= c <= '\U{00FE}' && c != '\U{00F7}' then (c as int - 32) as char
    else if c == '\U{00B5}' then '\U{039C}'
    else if c == '\U{00FF}' then '\U{0178}'
    else if c == '\U{03C2}' then '\U{03A3}'
    else if '\U{03B1}' <= c <= '\U{03CB}' then (c as int - 32) as char
    else if '\U{0430}' <= c <= '\U{044F}' then (c as int - 32) as char
    else if '\U{0450}' <= c <= '\U{045F}' then (c as int - 80) as char
    else c
  }

  /** `a.Equals(b, StringComparison.OrdinalIgnoreCase)`. */
  predicate EqualsIgnoreCase(a: string, b: string) {
    |a| == |b| && forall i :: 0 <= i < |a| ==> ToUpper(a[i]) == ToUpper(b[i])
  }

  /** `s.StartsWith(prefix, StringComparison.OrdinalIgnoreCase)`. */
  predicate StartsWithIgnoreCase(s: string, prefix: string) {
    |prefix| <= |s| && EqualsIgnoreCase(s[..|prefix|], prefix)
  }

  // ---------- 32-bit integers ----------

  const Int32Min: int := -0x8000_0000
  const Int32Max: int := 0x7FFF_FFFF

  predicate IsInt32(n: int) {
    Int32Min <= n <= Int32Max
  }

  predicate IsDigit(c: char) {
    '0' <= c <= '9'
  }

  predicate AllDigits(s: string) {
    forall i :: 0 <= i < |s| ==> IsDigit(s[i])
  }

  function DigitChar(d: nat): (c: char)
    requires d < 10
    ensures IsDigit(c)
  {
    ('0' as int + d) as char
  }

  /** The value of a string of decimal digits, most significant first. */
  function DigitsValue(s: string): nat
    requires AllDigits(s)
  {
    if s == [] then 0
    else DigitsValue(s[..|s| - 1]) * 10 + (s[|s| - 1] as int - '0' as int)
  }

  /** The shortest decimal digits of `n`. */
  function Digits(n: nat): (s: string)
    ensures |s| >= 1 && AllDigits(s)
    ensures s[0] == '0' ==> n == 0
    decreases n
  {
    if n < 10 then [DigitChar(n)] else Digits(n / 10) + [DigitChar(n % 10)]
  }

  /** Reading back the digits of `n` gives `n`. */
  lemma {:induction false} DigitsValueOfDigits(n: nat)
    ensures DigitsValue(Digits(n)) == n
    decreases n
  {
    if n >= 10 {
      var s := Digits(n);
      assert s[..|s| - 1] == Digits(n / 10);
      DigitsValueOfDigits(n / 10);
    }
  }

  /** `n.ToString(CultureInfo.InvariantCulture)` for an `int`. */
  function FormatInt(n: int): (s: string)
    ensures |s| >= 1
  {
    if n < 0 then "-" + Digits(-n) else Digits(n)
  }

  /** `int.TryParse`: an optional sign followed by one or more decimal digits
      whose value fits in 32 bits; anything else fails. */
  function ParseInt(s: string): (r: Option<int>)
    ensures r.Some? ==> IsInt32(r.value)
    ensures r.Some? ==> |s| >= 1 && (IsDigit(s[0]) || s[0] == '-' || s[0] == '+')
  {
    var signed := |s| > 0 && (s[0] == '-' || s[0] == '+');
    var body := if signed then s[1..] else s;
    if body == [] || !AllDigits(body) then None
    else
      var magnitude: int := DigitsValue(body);
      var v := if signed && s[0] == '-' then -magnitude else magnitude;
      if IsInt32(v) then Some(v) else None
  }

  /** What the client formats, the server parses back to the same integer. */
  lemma ParseFormat(n: int)
    requires IsInt32(n)
    ensures ParseInt(FormatInt(n)) == Some(n)
  {
    var s := FormatInt(n);
    if n < 0 {
      var ds := Digits(-n);
      assert s == "-" + ds && s[0] == '-' && s[1..] == ds;
      DigitsValueOfDigits(-n);
    } else {
      var ds := Digits(n);
      assert s == ds && IsDigit(s[0]);
      DigitsValueOfDigits(n);
    }
  }

  // ---------- Searching ----------

  /** The first position of a character of `cs` in `s`. */
  function IndexOfAny(s: string, cs: set<char>): (r: Option<nat>)
    ensures r.Some? ==> r.value < |s| && s[r.value] in cs
    ensures r.Some? ==> forall j :: 0 <= j < r.value ==> s[j] !in cs
    ensures r.None? ==> forall j :: 0 <= j < |s| ==> s[j] !in cs
  {
    if s == [] then None
    else if s[0] in cs then Some(0)
    else match IndexOfAny(s[1..], cs)
      case None => None
      case Some(i) => Some(i + 1)
  }

  /** The last position of `c` in `s`. */
  function LastIndexOf(s: string, c: char): (r: Option<nat>)
    ensures r.Some? ==> r.value < |s| && s[r.value] == c
    ensures r.Some? ==> forall j :: r.value < j < |s| ==> s[j] != c
    ensures r.None? ==> forall j :: 0 <= j < |s| ==> s[j] != c
  {
    if s == [] then None
    else if s[|s| - 1] == c then Some(|s| - 1)
    else LastIndexOf(s[..|s| - 1], c)
  }

  // ---------- URLs ----------

  predicate IsAsciiLetter(c: char) {
    'a' <= c <= 'z' || 'A' <= c <= 'Z'
  }

  /** A URI scheme: a letter, then letters, digits, '+', '-' or '.'. */
  predicate IsScheme(s: string) {
    && |s| >= 1 && IsAsciiLetter(s[0])
    && forall j :: 1 <= j < |s| ==> IsAsciiLetter(s[j]) || IsDigit(s[j]) || s[j] in {'+', '-', '.'}
  }

  /** `new Uri(url).LocalPath` for a hierarchical absolute URL
      `scheme://authority/path?query#fragment`, with percent-decoding left
      out. None stands for a text `new Uri` rejects: no scheme, no "//"
      after it, or an empty host where the scheme is not "file". The
      texts .NET accepts in other forms (non-hierarchical URIs such as
      "urn:isbn:1", rooted file paths, drive letters) are None here too. */
  function LocalPath(url: string): (r: Option<string>)
    ensures r.Some? ==> |r.value| >= 1 && r.value[0] == '/'
    ensures r.Some? ==> '?' !in r.value && '#' !in r.value
  {
    match IndexOfAny(url, {':'})
    case None => None
    case Some(i) =>
      var rest := url[i + 1..];
      if !IsScheme(url[..i]) || |rest| < 2 || rest[..2] != "//" then None
      else HierarchicalPath(url[..i], rest[2..])
  }

  /** The local path of what follows `scheme://`: the text from the end of
      the authority up to any query or fragment; None for an empty host
      outside the "file" scheme. */
  function HierarchicalPath(scheme: string, afterSlashes: string): (r: Option<string>)
    ensures r.Some? ==> |r.value| >= 1 && r.value[0] == '/'
    ensures r.Some? ==> '?' !in r.value && '#' !in r.value
  {
    var authorityEnd := match IndexOfAny(afterSlashes, {'/', '?', '#'})
      case None => |afterSlashes|
      case Some(j) => j;
    if authorityEnd == 0 && !EqualsIgnoreCase(scheme, "file") then None
    else
      var path := BeforeQuery(afterSlashes[authorityEnd..]);
      if path == "" then Some("/") else Some(path)
  }

  /** The text before the first '?' or '#'. */
  function BeforeQuery(tail: string): (r: string)
    ensures '?' !in r && '#' !in r
    ensures |r| <= |tail| && r == tail[..|r|]
  {
    match IndexOfAny(tail, {'?', '#'})
    case None => tail
    case Some(k) => tail[..k]
  }

  /** LocalPath of a URL whose scheme ends at `i`, whose host ends at `h`
      in the text after "//", and whose path `tail` has no query or
      fragment. */
  lemma LocalPathOfParts(url: string, i: nat, after: string, h: nat, tail: string)
    requires IndexOfAny(url, {':'}) == Some(i) && IsScheme(url[..i]) && url[i + 1..] == "//" + after
    requires IndexOfAny(after, {'/', '?', '#'}) == Some(h) && h > 0 && after[h..] == tail
    requires IndexOfAny(tail, {'?', '#'}).None? && tail != ""
    ensures LocalPath(url) == Some(tail)
  {
    var rest := url[i + 1..];
    assert rest[..2] == "//" && rest[2..] == after;
  }

  /** A URL without a host is rejected. */
  lemma LocalPathNeedsHost()
    ensures LocalPath("http://").None?
  {
    var url := "http://";
    assert IndexOfAny(url, {':'}) == Some(4) by {
      assert url[4] == ':' && forall j :: 0 <= j < 4 ==> url[j] != ':';
    }
    assert url[5..][2..] == "";
    assert !EqualsIgnoreCase("http", "file") by {
      assert ToUpper("http"[0]) != ToUpper("file"[0]);
    }
  }

  /** A scheme may carry '+', as in "svn+ssh". */
  lemma LocalPathSchemeWithPlus(url: string, after: string, tail: string)
    requires url == "svn+ssh://h/a.png" && after == "h/a.png" && tail == "/a.png"
    ensures LocalPath(url) == Some(tail)
  {
    FirstOfAny(url, {':'}, 7);
    assert url[..7] == "svn+ssh";
    assert IsScheme(url[..7]);
    assert url[8..] == "//" + after;
    FirstOfAny(after, {'/', '?', '#'}, 1);
    assert after[1..] == tail;
    NoneOfAny(tail, {'?', '#'});
    LocalPathOfParts(url, 7, after, 1, tail);
  }

  lemma FirstOfAny(s: string, cs: set<char>, i: nat)
    requires i < |s| && s[i] in cs && forall j :: 0 <= j < i ==> s[j] !in cs
    ensures IndexOfAny(s, cs) == Some(i)
  {
  }

  lemma NoneOfAny(s: string, cs: set<char>)
    requires forall j :: 0 <= j < |s| ==> s[j] !in cs
    ensures IndexOfAny(s, cs).None?
  {
  }

  /** `Path.GetFileName(path)`: the text after the last '/'. */
  function FileName(path: string): (r: string)
    ensures '/' !in r
    ensures |r| <= |path| && r == path[|path| - |r|..]
  {
    match LastIndexOf(path, '/')
    case None => path
    case Some(i) => path[i + 1..]
  }
}
