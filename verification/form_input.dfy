/**
 * The two pure helpers of app.py that read user-supplied text: `parse_int`, which turns
 * a form field into an integer the way Python's `int(str)` does, and `allowed_file`,
 * which checks an upload's extension.
 */
module FormInput {
  import opened Wrappers

  // ---------------------------------------------------------------------------
  // Python's int(str), base 10, ASCII digits and ASCII whitespace
  // ---------------------------------------------------------------------------

  /**
   * The ASCII characters `int` skips around a number: space, tab, line feed, vertical
   * tab, form feed and carriage return. (`str.isspace()` also accepts U+001C to U+001F,
   * but `int` rejects them.)
   */
  predicate IsSpace(c: char)
  {
    c == ' ' || (9 <= c as int <= 13)
  }

  /** Every character of `w` is whitespace (`w` may be empty). */
  predicate AllSpace(w: string)
  {
    forall i :: 0 <= i < |w| ==> IsSpace(w[i])
  }

  predicate IsDigit(c: char)
  {
    '0' <= c <= '9'
  }

  function DigitValue(c: char): nat
    requires IsDigit(c)
  {
    c as int - '0' as int
  }

  predicate IsSign(c: char)
  {
    c == '+' || c == '-'
  }

  /** `s` without its leading whitespace. */
  function StripLeft(s: string): string
  {
    if |s| > 0 && IsSpace(s[0]) then StripLeft(s[1..]) else s
  }

  /** `s` without its trailing whitespace. */
  function StripRight(s: string): string
  {
    if |s| > 0 && IsSpace(s[|s| - 1]) then StripRight(s[..|s| - 1]) else s
  }

  function Strip(s: string): string
  {
    StripRight(StripLeft(s))
  }

  /** Position `i` of a digit run holds a digit, or a single `_` between two digits. */
  predicate GroupCharOk(g: string, i: nat)
    requires i < |g|
  {
    || IsDigit(g[i])
    || (g[i] == '_' && 0 < i < |g| - 1 && IsDigit(g[i - 1]) && IsDigit(g[i + 1]))
  }

  /** A non-empty run of digits, optionally grouped by single underscores. */
  predicate IsDigitGroup(g: string)
  {
    |g| > 0 && forall i :: 0 <= i < |g| ==> GroupCharOk(g, i)
  }

  /** The decimal value of the digits of `g`, underscores skipped. */
  function GroupValue(g: string): nat
  {
    if |g| == 0 then 0
    else
      var c := g[|g| - 1];
      if IsDigit(c) then 10 * GroupValue(g[..|g| - 1]) + DigitValue(c)
      else GroupValue(g[..|g| - 1])
  }

  /** The text Python's `int` accepts: whitespace, an optional sign, a digit run, whitespace. */
  predicate IsIntLiteral(s: string)
  {
    var b := Strip(s);
    if |b| > 0 && IsSign(b[0]) then IsDigitGroup(b[1..]) else IsDigitGroup(b)
  }

  /** The integer an accepted literal denotes. */
  function LiteralValue(s: string): int
    requires IsIntLiteral(s)
  {
    var b := Strip(s);
    if b[0] == '-' then -(GroupValue(b[1..]) as int)
    else if b[0] == '+' then GroupValue(b[1..])
    else GroupValue(b)
  }

  /**
   * Left-to-right scan of a digit run from position `i`, with `acc` the value of the
   * part already read. Fails at the first character that breaks the grouping rules.
   */
  function ScanGroup(g: string, i: nat, acc: nat): (r: Option<nat>)
    requires i <= |g|
    requires forall j :: 0 <= j < i ==> GroupCharOk(g, j)
    requires acc == GroupValue(g[..i])
    ensures r.Some? <==> forall j :: 0 <= j < |g| ==> GroupCharOk(g, j)
    ensures r.Some? ==> r.value == GroupValue(g)
    decreases |g| - i
  {
    if i == |g| then
      assert g[..i] == g;
      Some(acc)
    else if !GroupCharOk(g, i) then
      None
    else
      assert g[..i + 1][..i] == g[..i];
      ScanGroup(g, i + 1, if IsDigit(g[i]) then 10 * acc + DigitValue(g[i]) else acc)
  }

  /** Scans a non-empty digit run; an empty one is refused. */
  function ScanDigits(g: string): (r: Option<nat>)
    ensures r.Some? <==> IsDigitGroup(g)
    ensures r.Some? ==> r.value == GroupValue(g)
  {
    if |g| == 0 then None else ScanGroup(g, 0, 0)
  }

  /**
   * parse_int(value, default): the integer `value` spells, or `default` when the field
   * is missing (`int(None)` raises TypeError) or malformed (`int` raises ValueError).
   */
  function ParseInt(value: Option<string>, default: int): (r: int)
    ensures value.Some? && IsIntLiteral(value.value) ==> r == LiteralValue(value.value)
    ensures !(value.Some? && IsIntLiteral(value.value)) ==> r == default
  {
    match value
    case None => default
    case Some(s) =>
      var b := Strip(s);
      if |b| > 0 && IsSign(b[0]) then
        match ScanDigits(b[1..])
        case None => default
        case Some(n) => if b[0] == '-' then -(n as int) else n
      else
        match ScanDigits(b)
        case None => default
        case Some(n) => n
  }

  // ---------------------------------------------------------------------------
  // Decimal rendering, the inverse of ParseInt on well-formed input
  // ---------------------------------------------------------------------------

  function DigitChar(d: nat): char
    requires d < 10
  {
    ('0' as int + d) as char
  }

  /** The shortest decimal spelling of `n`. */
  function ShowNat(n: nat): string
  {
    if n < 10 then [DigitChar(n)] else ShowNat(n / 10) + [DigitChar(n % 10)]
  }

  /** The decimal spelling of `n`, with a leading `-` when negative (Python's str(n)). */
  function ShowInt(n: int): string
  {
    if n < 0 then "-" + ShowNat(-n) else ShowNat(n)
  }

  lemma {:induction false} ShowNatDigits(n: nat)
    ensures |ShowNat(n)| > 0
    ensures forall i :: 0 <= i < |ShowNat(n)| ==> IsDigit(ShowNat(n)[i])
    ensures GroupValue(ShowNat(n)) == n
    decreases n
  {
    if n >= 10 {
      ShowNatDigits(n / 10);
      var p := ShowNat(n / 10);
      assert ShowNat(n) == p + [DigitChar(n % 10)];
      assert ShowNat(n)[..|ShowNat(n)| - 1] == p;
    }
  }

  lemma StripNoEdgeSpace(s: string)
    requires |s| > 0 && !IsSpace(s[0]) && !IsSpace(s[|s| - 1])
    ensures Strip(s) == s
  {
  }

  /** Python's `int(str(n)) == n`: every integer survives rendering and parsing. */
  lemma {:induction false} ParseIntRoundTrip(n: int, default: int)
    ensures IsIntLiteral(ShowInt(n))
    ensures ParseInt(Some(ShowInt(n)), default) == n
  {
    var m: nat := if n < 0 then -n else n;
    ShowNatDigits(m);
    var s := ShowInt(n);
    StripNoEdgeSpace(s);
    if n < 0 {
      assert s[1..] == ShowNat(m);
    }
  }

  /**
   * The separator controls U+001C to U+001F count as whitespace for `str.isspace` but not
   * for `int`: one of them before or after a digit run is not stripped, so the field is
   * malformed and gives `default`.
   */
  lemma ParseIntKeepsSeparatorControls(c: char, x: string, default: int)
    requires 0x1C <= c as int <= 0x1F && IsDigitGroup(x)
    ensures ParseInt(Some([c] + x), default) == default
    ensures ParseInt(Some(x + [c]), default) == default
  {
    var s := [c] + x;
    assert GroupCharOk(x, |x| - 1);
    assert s[|s| - 1] == x[|x| - 1];
    assert Strip(s) == s;
    assert !GroupCharOk(s, 0);
    var u := x + [c];
    assert GroupCharOk(x, 0);
    assert u[0] == x[0];
    assert Strip(u) == u;
    assert !GroupCharOk(u, |u| - 1);
  }

  /** Whitespace in front of any text is stripped away entirely. */
  lemma {:induction false} StripLeftSkipsSpaces(w: string, y: string)
    requires AllSpace(w)
    ensures StripLeft(w + y) == StripLeft(y)
    decreases |w|
  {
    if |w| > 0 {
      assert (w + y)[1..] == w[1..] + y;
      StripLeftSkipsSpaces(w[1..], y);
    } else {
      assert w + y == y;
    }
  }

  /** Whitespace after any text is stripped away entirely. */
  lemma {:induction false} StripRightSkipsSpaces(y: string, w: string)
    requires AllSpace(w)
    ensures StripRight(y + w) == StripRight(y)
    decreases |w|
  {
    if |w| > 0 {
      assert (y + w)[..|y + w| - 1] == y + w[..|w| - 1];
      StripRightSkipsSpaces(y, w[..|w| - 1]);
    } else {
      assert y + w == y;
    }
  }

  /** Stripping the front of `x + y` stops inside `x` unless `x` is all whitespace. */
  lemma {:induction false} StripLeftAppend(x: string, y: string)
    ensures StripLeft(x + y) == if |StripLeft(x)| > 0 then StripLeft(x) + y else StripLeft(y)
    decreases |x|
  {
    if |x| == 0 {
      assert x + y == y;
    } else if IsSpace(x[0]) {
      assert (x + y)[1..] == x[1..] + y;
      StripLeftAppend(x[1..], y);
    }
  }

  /** Whitespace around a field does not change what it strips to. */
  lemma StripIgnoresPadding(w1: string, x: string, w2: string)
    requires AllSpace(w1) && AllSpace(w2)
    ensures Strip(w1 + x + w2) == Strip(x)
  {
    assert w1 + x + w2 == w1 + (x + w2);
    StripLeftSkipsSpaces(w1, x + w2);
    StripLeftAppend(x, w2);
    if |StripLeft(x)| > 0 {
      StripRightSkipsSpaces(StripLeft(x), w2);
    } else {
      StripLeftSkipsSpaces(w2, "");
      assert w2 + "" == w2;
    }
  }

  /** Whitespace around a field never changes what `parse_int` makes of it: `int(" 42\n") == 42`. */
  lemma ParseIntIgnoresPadding(w1: string, x: string, w2: string, default: int)
    requires AllSpace(w1) && AllSpace(w2)
    ensures ParseInt(Some(w1 + x + w2), default) == ParseInt(Some(x), default)
  {
    StripIgnoresPadding(w1, x, w2);
  }

  /** An empty field, or one of only whitespace, gives `default`. */
  lemma ParseIntBlankIsDefault(b: string, default: int)
    requires AllSpace(b)
    ensures ParseInt(Some(b), default) == default
  {
    StripLeftSkipsSpaces(b, "");
    assert b + "" == b;
  }

  // ---------------------------------------------------------------------------
  // allowed_file
  // ---------------------------------------------------------------------------

  /** ALLOWED_EXTENSIONS */
  const ALLOWED_EXTENSIONS: set<string> := {"png", "jpg", "jpeg", "gif"}

  /** ASCII lower-casing of one character. */
  function LowerChar(c: char): char
  {
    if 'A' <= c <= 'Z' then (c as int + 32) as char else c
  }

  /**
   * `s.lower()`. Only ASCII letters are folded: no non-ASCII character lowers to text
   * that is an allowed extension, so the verdict of `AllowedFile` is the same.
   */
  function Lower(s: string): (r: string)
    ensures |r| == |s|
    ensures forall i :: 0 <= i < |s| ==> r[i] == LowerChar(s[i])
  {
    if |s| == 0 then "" else [LowerChar(s[0])] + Lower(s[1..])
  }

  /** Position of the last `.` in `s`, if any: where `s.rsplit('.', 1)` cuts. */
  function LastDot(s: string): (r: Option<nat>)
    ensures r.None? <==> '.' !in s
    ensures r.Some? ==> r.value < |s| && s[r.value] == '.' && '.' !in s[r.value + 1..]
  {
    if |s| == 0 then None
    else if s[|s| - 1] == '.' then Some(|s| - 1)
    else
      var r := LastDot(s[..|s| - 1]);
      assert s == s[..|s| - 1] + [s[|s| - 1]];
      if r.Some? then
        assert s[r.value + 1..] == s[..|s| - 1][r.value + 1..] + [s[|s| - 1]];
        r
      else r
  }

  /** The extension after the last dot, lower-cased, is one of the allowed ones. */
  predicate HasAllowedExtension(filename: string, dot: nat)
    requires dot < |filename|
  {
    Lower(filename[dot + 1..]) in ALLOWED_EXTENSIONS
  }

  /** allowed_file(filename) */
  function AllowedFile(filename: string): (r: bool)
    ensures r <==> exists i :: 0 <= i < |filename| && filename[i] == '.' && '.' !in filename[i + 1..]
                               && HasAllowedExtension(filename, i)
  {
    match LastDot(filename)
    case None => false
    case Some(d) =>
      forall i | 0 <= i < |filename| && filename[i] == '.' && '.' !in filename[i + 1..]
        ensures i == d
      {
      }
      HasAllowedExtension(filename, d)
  }

  /** A name built as `stem.ext`, with no dot in `ext`, is judged on `ext` alone. */
  lemma {:induction false} AllowedFileJudgesLastExtension(stem: string, ext: string)
    requires '.' !in ext
    ensures AllowedFile(stem + "." + ext) <==> Lower(ext) in ALLOWED_EXTENSIONS
  {
    var f := stem + "." + ext;
    var d := |stem|;
    assert f[d] == '.';
    assert f[d + 1..] == ext;
    if AllowedFile(f) {
      var i :| 0 <= i < |f| && f[i] == '.' && '.' !in f[i + 1..] && HasAllowedExtension(f, i);
      assert i == d;
    }
  }
}
