/** String helpers with the meaning of the JavaScript and Node.js built-ins the upload handlers
    call: String.prototype.trim, the `/\D/g` replacement, the decimal rendering of a non-negative
    integer in a template string, and Node's POSIX path.extname and path.basename. */
module Text {

  /** The characters String.prototype.trim removes: ECMAScript WhiteSpace and LineTerminator. */
  predicate IsSpace(c: char) {
    c == '\t' || c == '\n' || c == '\U{000B}' || c == '\U{000C}' || c == '\r' || c == ' '
    || c == '\U{00A0}' || c == '\U{1680}' || ('\U{2000}' <= c && c <= '\U{200A}')
    || c == '\U{2028}' || c == '\U{2029}' || c == '\U{202F}' || c == '\U{205F}'
    || c == '\U{3000}' || c == '\U{FEFF}'
  }

  /** What the regular-expression class `\d` matches (ASCII digits only). */
  predicate IsDigit(c: char) {
    '0' <= c <= '9'
  }

  predicate AllSpace(s: string) {
    forall i :: 0 <= i < |s| ==> IsSpace(s[i])
  }

  predicate AllDigits(s: string) {
    forall i :: 0 <= i < |s| ==> IsDigit(s[i])
  }

  /** `c` does not occur in `s`. */
  predicate Lacks(s: string, c: char) {
    forall i :: 0 <= i < |s| ==> s[i] != c
  }

  lemma LacksAppend(a: string, b: string, c: char)
    ensures Lacks(a + b, c) <==> Lacks(a, c) && Lacks(b, c)
  {
    assert forall i :: 0 <= i < |a| ==> (a + b)[i] == a[i];
    assert forall i :: 0 <= i < |b| ==> (a + b)[|a| + i] == b[i];
  }

  lemma DigitsLack(s: string, c: char)
    requires AllDigits(s) && !IsDigit(c)
    ensures Lacks(s, c)
  {
  }

  /** Splitting at the first occurrence of a separator is unambiguous. */
  lemma SplitAtFirst(a: string, x: string, b: string, y: string, c: char)
    requires Lacks(a, c) && Lacks(b, c)
    requires a + [c] + x == b + [c] + y
    ensures a == b && x == y
  {
    var s := a + [c] + x;
    assert s[|a|] == c && forall i :: 0 <= i < |a| ==> s[i] == a[i];
    assert s[|b|] == c && forall i :: 0 <= i < |b| ==> s[i] == b[i];
    assert |a| == |b|;
    assert a == s[..|a|] && b == s[..|b|];
    assert x == s[|a| + 1..] && y == s[|b| + 1..];
  }

  /** Leading whitespace removed. */
  function TrimStart(s: string): (r: string)
    ensures |r| <= |s| && r == s[|s| - |r|..]
    ensures AllSpace(s[..|s| - |r|])
    ensures |r| > 0 ==> !IsSpace(r[0])
  {
    if |s| > 0 && IsSpace(s[0]) then TrimStart(s[1..]) else s
  }

  /** Trailing whitespace removed. */
  function TrimEnd(s: string): (r: string)
    ensures |r| <= |s| && r == s[..|r|]
    ensures AllSpace(s[|r|..])
    ensures |r| > 0 ==> !IsSpace(r[|r| - 1])
  {
    if |s| > 0 && IsSpace(s[|s| - 1]) then TrimEnd(s[..|s| - 1]) else s
  }

  /** String.prototype.trim: the result neither starts nor ends with whitespace, and it is empty
      exactly when the input is whitespace only. */
  function Trim(s: string): (r: string)
    ensures r == "" || (!IsSpace(r[0]) && !IsSpace(r[|r| - 1]))
    ensures r == "" <==> AllSpace(s)
  {
    var t := TrimStart(s);
    var r := TrimEnd(t);
    assert r == "" ==> AllSpace(s) by {
      if r == "" {
        assert s == s[..|s| - |t|] + t;
        assert t == t[..0] + t[0..];
      }
    }
    r
  }

  /** The JavaScript test `!x.trim()`: nothing but whitespace (the empty string included). */
  predicate IsBlank(s: string) {
    Trim(s) == ""
  }

  /** `s.replace(/\D/g, '')`: the digits of `s`, in order. */
  function DigitsOnly(s: string): (r: string)
    ensures |r| <= |s| && AllDigits(r)
    ensures AllDigits(s) ==> r == s
    ensures r == "" <==> forall i :: 0 <= i < |s| ==> !IsDigit(s[i])
  {
    if s == "" then ""
    else
      var rest := DigitsOnly(s[1..]);
      assert forall i :: 1 <= i < |s| ==> s[i] == s[1..][i - 1];
      if IsDigit(s[0]) then [s[0]] + rest else rest
  }

  /** Removing non-digits distributes over concatenation. */
  lemma {:induction false} DigitsOnlyAppend(a: string, b: string)
    ensures DigitsOnly(a + b) == DigitsOnly(a) + DigitsOnly(b)
  {
    if a == "" {
      assert a + b == b;
    } else {
      assert (a + b)[0] == a[0];
      assert (a + b)[1..] == a[1..] + b;
      DigitsOnlyAppend(a[1..], b);
    }
  }

  function DigitChar(d: nat): (c: char)
    requires d < 10
    ensures IsDigit(c)
  {
    ('0' as int + d) as char
  }

  function DigitValue(c: char): (d: nat)
    requires IsDigit(c)
    ensures d < 10 && DigitChar(d) == c
  {
    c as int - '0' as int
  }

  /** How a template string renders a non-negative integer (such as Date.now() or `index + 1`):
      its decimal digits, without leading zeros. */
  function Decimal(n: nat): (r: string)
    ensures |r| > 0 && AllDigits(r)
    ensures r[0] == '0' ==> n == 0 && r == "0"
  {
    if n < 10 then [DigitChar(n)] else Decimal(n / 10) + [DigitChar(n % 10)]
  }

  /** The number a string of decimal digits denotes. */
  function DecimalValue(s: string): nat
    requires AllDigits(s)
  {
    if s == "" then 0 else 10 * DecimalValue(s[..|s| - 1]) + DigitValue(s[|s| - 1])
  }

  /** Reading the rendered digits back gives the number. */
  lemma {:induction false} DecimalRoundTrip(n: nat)
    ensures DecimalValue(Decimal(n)) == n
  {
    if n >= 10 {
      var r := Decimal(n);
      assert r[..|r| - 1] == Decimal(n / 10);
      DecimalRoundTrip(n / 10);
    }
  }

  /** Different numbers render differently. */
  lemma DecimalInjective(m: nat, n: nat)
    ensures Decimal(m) == Decimal(n) ==> m == n
  {
    DecimalRoundTrip(m);
    DecimalRoundTrip(n);
  }

  /** The index of the last occurrence of `c`, or -1. */
  function LastIndexOf(s: string, c: char): (k: int)
    ensures -1 <= k < |s|
    ensures k >= 0 ==> s[k] == c
    ensures forall j :: k < j < |s| ==> s[j] != c
  {
    if |s| == 0 then -1
    else if s[|s| - 1] == c then |s| - 1
    else LastIndexOf(s[..|s| - 1], c)
  }

  /** The index of the last character other than `c`, or -1. */
  function LastIndexNotOf(s: string, c: char): (k: int)
    ensures -1 <= k < |s|
    ensures k >= 0 ==> s[k] != c
    ensures forall j :: k < j < |s| ==> s[j] == c
  {
    if |s| == 0 then -1
    else if s[|s| - 1] != c then |s| - 1
    else LastIndexNotOf(s[..|s| - 1], c)
  }

  /** The path with every trailing '/' removed. */
  function DropTrailingSlashes(p: string): string {
    p[..LastIndexNotOf(p, '/') + 1]
  }

  /** path.basename(p) on POSIX: what follows the last '/' once trailing slashes are dropped. */
  function Basename(p: string): (b: string)
    ensures Lacks(b, '/')
  {
    var q := DropTrailingSlashes(p);
    q[LastIndexOf(q, '/') + 1..]
  }

  /** path.extname(p) on POSIX: from the last '.' of the base name to its end. It is empty when
      the base name has no '.', when its only leading character is that '.' (".bashrc"), and
      for the base name "..". */
  function ExtName(p: string): (ext: string)
    ensures ext == "" || ext[0] == '.'
    ensures forall i :: 1 <= i < |ext| ==> ext[i] != '.'
    ensures Lacks(ext, '/')
  {
    var base := Basename(p);
    var dot := LastIndexOf(base, '.');
    // with dot > 0, the base name is ".." exactly when it is two characters starting with '.'
    if dot <= 0 || (|base| == 2 && base[0] == '.') then ""
    else
      TailAfterLastDot(base, dot);
      base[dot..]
  }

  /** The extension is non-empty exactly when the base name has a '.' after its first character
      and is not "..". With ExtNameEndsBasename, this pins the extension down: it runs from the
      last '.' to the end of the base name. */
  lemma ExtNameNonEmpty(p: string)
    ensures ExtName(p) != "" <==>
      Basename(p) != ".." && exists i :: 0 < i < |Basename(p)| && Basename(p)[i] == '.'
  {
  }

  /** What follows the last '.' of a '/'-free name has the shape of an extension. */
  lemma TailAfterLastDot(base: string, dot: int)
    requires 0 <= dot < |base| && base[dot] == '.' && Lacks(base, '/')
    requires forall j :: dot < j < |base| ==> base[j] != '.'
    ensures base[dot..][0] == '.'
    ensures forall i :: 1 <= i < |base[dot..]| ==> base[dot..][i] != '.'
    ensures Lacks(base[dot..], '/')
  {
    assert forall i :: 0 <= i < |base[dot..]| ==> base[dot..][i] == base[dot + i];
  }

  /** The extension is the end of the base name. */
  lemma ExtNameEndsBasename(p: string)
    ensures |ExtName(p)| <= |Basename(p)|
    ensures ExtName(p) == Basename(p)[|Basename(p)| - |ExtName(p)|..]
  {
  }

  /** A '/'-free, non-empty name joined under a directory has that name as its base name. */
  lemma BasenameOfJoin(dir: string, name: string)
    requires name != "" && Lacks(name, '/')
    ensures Basename(dir + "/" + name) == name
  {
    var p := dir + "/" + name;
    assert DropTrailingSlashes(p) == p;
    assert p[|p| - |name| - 1] == '/';
  }

  /** A name that ends in an extension keeps that extension, provided what precedes it is
      non-empty, starts with neither '.' nor '/', and has no '.' or '/' at all. */
  lemma ExtNameOfSuffixed(prefix: string, ext: string)
    requires prefix != "" && forall i :: 0 <= i < |prefix| ==> prefix[i] != '.' && prefix[i] != '/'
    requires ext == "" || ext[0] == '.'
    requires Lacks(ext, '/')
    requires forall i :: 1 <= i < |ext| ==> ext[i] != '.'
    ensures ExtName(prefix + ext) == ext
  {
    var p := prefix + ext;
    assert p[|p| - 1] != '/';
    assert DropTrailingSlashes(p) == p;
    assert Basename(p) == p;
    var dot := LastIndexOf(p, '.');
    if ext == "" {
      assert p == prefix;
    } else {
      assert p[|prefix|] == '.';
      assert p[0] == prefix[0];
    }
  }
}
