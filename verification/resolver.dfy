/**
 * `NanonisData.__init__` of nanonis_reader/util.py: from a base path, a file
 * number and an optional keyword, build a glob pattern, pick the first
 * match, and hand the file to the parser registered for its extension.
 * The filesystem (`glob.glob`) and the parsers are parameters.
 */
module Resolver {
  import opened Wrappers
  import opened Text
  import opened Records

  /** The `file_number` argument: an int, a str, or anything else (None). */
  datatype FileNumber = IntNumber(n: int) | StrNumber(s: string) | NoNumber

  /** The `keyword` argument: None or a string. */
  type Keyword = Option<string>

  /** Python truthiness of the keyword: None and "" are false. */
  predicate Truthy(keyword: Keyword)
  {
    keyword.Some? && keyword.value != ""
  }

  function Max(a: int, b: int): int
  {
    if a < b then b else a
  }

  // ---------------------------------------------------------------------
  // Decimal digits and zero padding
  // ---------------------------------------------------------------------

  predicate IsDigits(s: string)
  {
    forall k | 0 <= k < |s| :: '0' <= s[k] <= '9'
  }

  function DigitChar(d: nat): (c: char)
    requires d < 10
    ensures '0' <= c <= '9'
  {
    ('0' as int + d) as char
  }

  function DigitValue(c: char): nat
    requires '0' <= c <= '9'
  {
    c as int - '0' as int
  }

  /** `str(n)` for a non-negative int: its decimal digits, no leading zero. */
  function Digits(n: nat): (r: string)
    ensures |r| >= 1 && IsDigits(r)
    ensures r[0] == '0' <==> n == 0
    decreases n
  {
    if n < 10 then [DigitChar(n)] else Digits(n / 10) + [DigitChar(n % 10)]
  }

  /** `str(n)` for any int. */
  function DecimalString(n: int): string
  {
    if n < 0 then "-" + Digits(-n) else Digits(n)
  }

  /** The value of a string of decimal digits (leading zeros allowed). */
  function ParseDecimal(s: string): nat
    requires IsDigits(s)
  {
    if s == [] then 0 else ParseDecimal(s[..|s| - 1]) * 10 + DigitValue(s[|s| - 1])
  }

  function Zeros(k: nat): (r: string)
    ensures |r| == k && IsDigits(r)
  {
    seq(k, _ => '0')
  }

  /**
   * `s.zfill(width)`: pad on the left with '0' up to `width`; a leading
   * sign stays in front of the zeros; a string already that long is kept.
   */
  function ZFill(s: string, width: nat): (r: string)
    ensures |r| == Max(|s|, width)
    ensures |s| >= width ==> r == s
    ensures |s| < width && |s| > 0 && (s[0] == '+' || s[0] == '-') ==>
      && r[0] == s[0] && r[width - |s| + 1..] == s[1..]
      && forall i | 1 <= i <= width - |s| :: r[i] == '0'
    ensures |s| < width && !(|s| > 0 && (s[0] == '+' || s[0] == '-')) ==>
      && r[width - |s|..] == s
      && forall i | 0 <= i < width - |s| :: r[i] == '0'
  {
    if |s| >= width then s
    else if |s| > 0 && (s[0] == '+' || s[0] == '-') then [s[0]] + Zeros(width - |s|) + s[1..]
    else Zeros(width - |s|) + s
  }

  /** `str(file_number).zfill(4)`, reached only for an int or a str. */
  function NumberStr(number: FileNumber): string
    requires !number.NoNumber?
  {
    match number
    case IntNumber(n) => ZFill(DecimalString(n), 4)
    case StrNumber(s) => ZFill(s, 4)
  }

  lemma {:induction false} DigitsRoundTrip(n: nat)
    ensures ParseDecimal(Digits(n)) == n
    decreases n
  {
    if n >= 10 {
      DigitsRoundTrip(n / 10);
      var r := Digits(n);
      assert r[..|r| - 1] == Digits(n / 10);
    }
  }

  lemma {:induction false} ParseLeadingZeros(k: nat, s: string)
    requires IsDigits(s)
    ensures ParseDecimal(Zeros(k) + s) == ParseDecimal(s)
    decreases |s|, k
  {
    if s == [] {
      assert Zeros(k) + s == Zeros(k);
      if k > 0 {
        assert Zeros(k)[..k - 1] == Zeros(k - 1) + [];
        ParseLeadingZeros(k - 1, []);
      }
    } else {
      var t := Zeros(k) + s;
      assert t[..|t| - 1] == Zeros(k) + s[..|s| - 1];
      ParseLeadingZeros(k, s[..|s| - 1]);
    }
  }

  /**
   * For a non-negative file number the padded string is its digits with
   * zeros in front, max(4, digit count) long, all decimal digits, and it
   * reads back as the number itself.
   */
  lemma PaddedNumber(n: nat)
    ensures var r := NumberStr(IntNumber(n));
      && r == Zeros(Max(4 - |Digits(n)|, 0)) + Digits(n)
      && |r| == Max(4, |Digits(n)|)
      && IsDigits(r)
      && ParseDecimal(r) == n
  {
    var d := Digits(n);
    var pad := Zeros(Max(4 - |d|, 0));
    PaddedShape(n);
    DigitsRoundTrip(n);
    ParseLeadingZeros(|pad|, d);
    assert ParseDecimal(pad + d) == n;
  }

  /** The padded string of a non-negative number is digits, zeros first. */
  lemma PaddedShape(n: nat)
    ensures NumberStr(IntNumber(n)) == Zeros(Max(4 - |Digits(n)|, 0)) + Digits(n)
    ensures IsDigits(Zeros(Max(4 - |Digits(n)|, 0)) + Digits(n))
  {
    var d := Digits(n);
    var pad := Zeros(Max(4 - |d|, 0));
    assert NumberStr(IntNumber(n)) == ZFill(d, 4);
    PaddedDigits(d);
    var r := pad + d;
    forall k | 0 <= k < |r| ensures '0' <= r[k] <= '9' {
      if k < |pad| { assert r[k] == pad[k]; } else { assert r[k] == d[k - |pad|]; }
    }
  }

  /** Padding a digit string puts zeros in front of it. */
  lemma PaddedDigits(d: string)
    requires |d| >= 1 && IsDigits(d)
    ensures ZFill(d, 4) == Zeros(Max(4 - |d|, 0)) + d
  {
    if |d| >= 4 {
      assert Zeros(0) + d == d;
    } else {
      assert '0' <= d[0] <= '9';
    }
  }

  /** Distinct non-negative file numbers give distinct padded strings. */
  lemma PaddedNumberInjective(a: nat, b: nat)
    requires NumberStr(IntNumber(a)) == NumberStr(IntNumber(b))
    ensures a == b
  {
    PaddedNumber(a);
    PaddedNumber(b);
  }

  /** A negative file number keeps its sign first and is padded after it. */
  lemma PaddedNegative(n: int)
    requires n < 0
    ensures var r := NumberStr(IntNumber(n));
      && r == "-" + Zeros(Max(3 - |Digits(-n)|, 0)) + Digits(-n)
      && |r| == Max(4, 1 + |Digits(-n)|)
  {
    var d := Digits(-n);
    var s := DecimalString(n);
    assert s == "-" + d && s[0] == '-' && s[1..] == d;
    if |s| >= 4 {
      assert Zeros(0) == "";
      assert "-" + Zeros(0) + d == s;
    }
  }

  // ---------------------------------------------------------------------
  // Glob pattern
  // ---------------------------------------------------------------------

  /** `os.path.join(a, b)` on POSIX. */
  function PathJoin(a: string, b: string): string
  {
    if |b| > 0 && b[0] == '/' then b
    else if a == [] || a[|a| - 1] == '/' then a + b
    else a + "/" + b
  }

  /** The last component of the pattern: `*{keyword}*_{number}.*` or `*_{number}.*`. */
  function NamePattern(keyword: Keyword, numberStr: string): string
  {
    if Truthy(keyword) then "*" + keyword.value + "*_" + numberStr + ".*"
    else "*_" + numberStr + ".*"
  }

  function Pattern(basePath: string, keyword: Keyword, numberStr: string): string
  {
    PathJoin(basePath, NamePattern(keyword, numberStr))
  }

  /**
   * The exact pattern: the base path, a '/' unless it is empty or already
   * ends in one, then `*{keyword}*_{number}.*` for a truthy keyword and
   * `*_{number}.*` otherwise.
   */
  lemma PatternForm(basePath: string, keyword: Keyword, numberStr: string)
    ensures var r := Pattern(basePath, keyword, numberStr);
      var dir := if basePath == "" || basePath[|basePath| - 1] == '/' then basePath else basePath + "/";
      && (Truthy(keyword) ==> r == dir + "*" + keyword.value + "*_" + numberStr + ".*")
      && (!Truthy(keyword) ==> r == dir + "*_" + numberStr + ".*")
  {
  }

  /**
   * The pattern starts with the base path, ends with `*_{number}.*`, and
   * with a truthy keyword ends with `*{keyword}*_{number}.*`; an empty
   * keyword builds the same pattern as no keyword.
   */
  lemma PatternShape(basePath: string, keyword: Keyword, numberStr: string)
    ensures var r := Pattern(basePath, keyword, numberStr);
      && |basePath| <= |r| && r[..|basePath|] == basePath
      && EndsWith(r, "*_" + numberStr + ".*")
      && (Truthy(keyword) ==> EndsWith(r, "*" + keyword.value + "*_" + numberStr + ".*"))
      && (keyword == Some("") ==> r == Pattern(basePath, None, numberStr))
  {
    var r := Pattern(basePath, keyword, numberStr);
    var name := NamePattern(keyword, numberStr);
    var tail := "*_" + numberStr + ".*";
    assert EndsWith(name, tail) by {
      if Truthy(keyword) {
        assert name == ("*" + keyword.value) + tail;
      }
    }
    assert EndsWith(r, name);
  }

  // ---------------------------------------------------------------------
  // Picking the file
  // ---------------------------------------------------------------------

  function NotFoundMessage(numberStr: string, keyword: Keyword): string
  {
    if Truthy(keyword) then "No file found with number " + numberStr + " and keyword '" + keyword.value + "'"
    else "No file found with number " + numberStr
  }

  /**
   * The path `__init__` settles on: the base path itself when no number is
   * given, else the first glob match, or a ValueError when nothing matched.
   */
  function ResolvePath(basePath: string, number: FileNumber, keyword: Keyword, glob: string -> seq<string>): (r: Result<string, Exception>)
    ensures number.NoNumber? ==> r == Ok(basePath)
    ensures !number.NoNumber? ==>
      var matches := glob(Pattern(basePath, keyword, NumberStr(number)));
      && (r.Err? <==> matches == [])
      && (r.Ok? ==> r.value == matches[0])
      && (r.Err? ==> r.error == ValueError(NotFoundMessage(NumberStr(number), keyword)))
  {
    if number.NoNumber? then Ok(basePath)
    else
      var numberStr := NumberStr(number);
      var matches := glob(Pattern(basePath, keyword, numberStr));
      if matches == [] then Err(ValueError(NotFoundMessage(numberStr, keyword)))
      else Ok(matches[0])
  }

  // ---------------------------------------------------------------------
  // Extension and parser dispatch
  // ---------------------------------------------------------------------

  /** `s.rfind(c)`: the last index of `c`, or -1. */
  function RFind(s: string, c: char): (r: int)
    ensures -1 <= r < |s|
  {
    if s == [] then -1
    else if s[|s| - 1] == c then |s| - 1
    else RFind(s[..|s| - 1], c)
  }

  /** RFind finds an occurrence of `c` with none after it, or reports -1 for none at all. */
  lemma {:induction false} RFindLast(s: string, c: char)
    ensures var r := RFind(s, c);
      && (r >= 0 ==> s[r] == c)
      && forall k | r < k < |s| :: s[k] != c
  {
    if s != [] && s[|s| - 1] != c {
      RFindLast(s[..|s| - 1], c);
    }
  }

  /** RFind finds the one occurrence with none after it. */
  lemma {:induction false} RFindAt(s: string, c: char, i: nat)
    requires i < |s| && s[i] == c
    requires forall k | i < k < |s| :: s[k] != c
    ensures RFind(s, c) == i
  {
    if i < |s| - 1 {
      RFindAt(s[..|s| - 1], c, i);
    }
  }

  /** Some character of `s` is not a '.'. */
  predicate HasNonDot(s: string)
  {
    s != [] && (s[0] != '.' || HasNonDot(s[1..]))
  }

  lemma {:induction false} HasNonDotAt(s: string, j: nat)
    requires j < |s| && s[j] != '.'
    ensures HasNonDot(s)
  {
    if j > 0 {
      HasNonDotAt(s[1..], j - 1);
    }
  }

  /**
   * The extension `os.path.splitext` reports: from the last '.' of the last
   * path component, provided that component has a character other than '.'
   * before it (so ".bashrc" has no extension); otherwise "".
   */
  function Extension(path: string): string
  {
    var sepIndex := RFind(path, '/');
    var dotIndex := RFind(path, '.');
    if dotIndex > sepIndex && HasNonDot(path[sepIndex + 1..dotIndex]) then path[dotIndex..] else ""
  }

  /** An extension is empty or a '.' followed by neither '.' nor '/', ending the path. */
  lemma ExtensionShape(path: string)
    ensures var ext := Extension(path);
      ext == "" || (ext[0] == '.' && '.' !in ext[1..] && '/' !in ext && EndsWith(path, ext))
  {
    var dotIndex := RFind(path, '.');
    if Extension(path) != "" {
      RFindLast(path, '/');
      RFindLast(path, '.');
      TailShape(path, dotIndex);
    }
  }

  /** The tail from a '.' that has neither '.' nor '/' after it. */
  lemma TailShape(path: string, i: nat)
    requires i < |path| && path[i] == '.'
    requires forall k | i < k < |path| :: path[k] != '.' && path[k] != '/'
    ensures var ext := path[i..];
      ext[0] == '.' && '.' !in ext[1..] && '/' !in ext && EndsWith(path, ext)
  {
    var ext := path[i..];
    assert '.' !in ext[1..] by {
      forall k | 0 <= k < |ext[1..]| ensures ext[1..][k] != '.' {
        assert ext[1..][k] == path[i + 1 + k];
      }
    }
    assert '/' !in ext by {
      forall k | 0 <= k < |ext| ensures ext[k] != '/' {
        assert ext[k] == path[i + k];
      }
    }
    assert path[|path| - |ext|..] == ext;
  }

  /**
   * A file `<dir><stem>.<ext>`, where `<dir>` is empty or ends in '/' and
   * neither `<stem>` nor `<ext>` holds a '/', and `<ext>` no '.': its
   * extension is `.<ext>` exactly when the stem has a character other
   * than '.', and empty otherwise.
   */
  lemma ExtensionSplit(dir: string, stem: string, ext: string)
    requires dir == "" || dir[|dir| - 1] == '/'
    requires '/' !in stem && '/' !in ext && '.' !in ext
    ensures Extension(dir + stem + "." + ext) == if HasNonDot(stem) then "." + ext else ""
  {
    var p := dir + stem + "." + ext;
    SplitPoints(dir, stem, ext);
    var sepIndex := RFind(p, '/');
    var dotIndex := RFind(p, '.');
    assert p[sepIndex + 1..dotIndex] == stem;
  }

  /** Where the last '/' and the last '.' of `<dir><stem>.<ext>` are. */
  lemma SplitPoints(dir: string, stem: string, ext: string)
    requires dir == "" || dir[|dir| - 1] == '/'
    requires '/' !in stem && '/' !in ext && '.' !in ext
    ensures var p := dir + stem + "." + ext;
      && RFind(p, '/') == |dir| - 1 && RFind(p, '.') == |dir| + |stem|
      && p[|dir|..|dir| + |stem|] == stem && p[|dir| + |stem|..] == "." + ext
  {
    var p := dir + stem + "." + ext;
    var dot := |dir| + |stem|;
    assert forall k | |dir| <= k < |p| :: p[k] != '/' by {
      forall k | |dir| <= k < |p| ensures p[k] != '/' {
        if k < dot { assert p[k] == stem[k - |dir|]; }
        else if k > dot { assert p[k] == ext[k - dot - 1]; }
      }
    }
    assert forall k | dot < k < |p| :: p[k] != '.' by {
      forall k | dot < k < |p| ensures p[k] != '.' { assert p[k] == ext[k - dot - 1]; }
    }
    RFindAt(p, '.', dot);
    if dir == "" {
      RFindLast(p, '/');
    } else {
      RFindAt(p, '/', |dir| - 1);
    }
    assert p[|dir|..dot] == stem;
    assert p[dot..] == "." + ext;
  }

  /**
   * A file `<dir><name>.<ext>` whose name is not all dots has extension
   * `.<ext>`.
   */
  lemma ExtensionOfFile(dir: string, name: string, ext: string, j: nat)
    requires dir == "" || dir[|dir| - 1] == '/'
    requires '/' !in name && '/' !in ext && '.' !in ext
    requires j < |name| && name[j] != '.'
    ensures Extension(dir + name + "." + ext) == "." + ext
  {
    ExtensionSplit(dir, name, ext);
    HasNonDotAt(name, j);
  }

  /**
   * A file name whose only characters before its last '.' are dots, such as
   * ".sxm" or "..sxm", has no extension: leading dots belong to the name.
   */
  lemma ExtensionLeadingDots(dir: string, dots: string, ext: string)
    requires dir == "" || dir[|dir| - 1] == '/'
    requires forall k | 0 <= k < |dots| :: dots[k] == '.'
    requires '/' !in ext && '.' !in ext
    ensures Extension(dir + dots + "." + ext) == ""
  {
    assert '/' !in dots by {
      forall k | 0 <= k < |dots| ensures dots[k] != '/' { }
    }
    ExtensionSplit(dir, dots, ext);
    AllDots(dots);
  }

  /** A file name with no '.' has no extension. */
  lemma ExtensionNoDot(dir: string, name: string)
    requires dir == "" || dir[|dir| - 1] == '/'
    requires '/' !in name && '.' !in name
    ensures Extension(dir + name) == ""
  {
    var p := dir + name;
    assert forall k | |dir| <= k < |p| :: p[k] != '.' && p[k] != '/' by {
      forall k | |dir| <= k < |p| ensures p[k] != '.' && p[k] != '/' {
        assert p[k] == name[k - |dir|];
      }
    }
    RFindLast(p, '.');
    if dir == "" {
      RFindLast(p, '/');
    } else {
      RFindAt(p, '/', |dir| - 1);
    }
  }

  lemma {:induction false} AllDots(s: string)
    requires forall k | 0 <= k < |s| :: s[k] == '.'
    ensures !HasNonDot(s)
  {
    if s != [] {
      AllDots(s[1..]);
    }
  }

  /** The three parsers registered in `file_handlers`. */
  datatype Format = Sxm | Dat | Grid

  function ExtensionOf(format: Format): string
  {
    match format
    case Sxm => ".sxm"
    case Dat => ".dat"
    case Grid => ".3ds"
  }

  /** Lookup in `file_handlers`. */
  function FormatOf(ext: string): (r: Option<Format>)
    ensures r.Some? ==> ExtensionOf(r.value) == ext
  {
    if ext == ".sxm" then Some(Sxm)
    else if ext == ".dat" then Some(Dat)
    else if ext == ".3ds" then Some(Grid)
    else None
  }

  /** Each registered extension leads back to its own parser. */
  lemma FormatOfExtension(format: Format)
    ensures FormatOf(ExtensionOf(format)) == Some(format)
  {
  }

  /** The loader a parser provides: the file's record, or what it raised. */
  type Loader = (Format, string) -> Result<LoadedFile, Exception>

  /** `NanonisData(base_path, file_number, keyword)`. */
  function Resolve(basePath: string, number: FileNumber, keyword: Keyword, glob: string -> seq<string>, load: Loader): Result<LoadedFile, Exception>
  {
    match ResolvePath(basePath, number, keyword, glob)
    case Err(e) => Err(e)
    case Ok(path) =>
      var ext := Extension(path);
      match FormatOf(ext)
      case None => Err(ValueError("Unsupported file extension: " + ext))
      case Some(format) => load(format, path)
  }

  /**
   * A parser runs exactly when the path was found and its extension is
   * `.sxm`, `.dat` or `.3ds`, and then it is that extension's parser;
   * otherwise the result is a ValueError and does not depend on the
   * parsers at all.
   */
  lemma ResolveDispatch(basePath: string, number: FileNumber, keyword: Keyword, glob: string -> seq<string>, load: Loader, other: Loader)
    ensures var path := ResolvePath(basePath, number, keyword, glob);
      var r := Resolve(basePath, number, keyword, glob, load);
      && (path.Ok? && Extension(path.value) in {".sxm", ".dat", ".3ds"} ==>
            exists f :: ExtensionOf(f) == Extension(path.value) && r == load(f, path.value))
      && (!(path.Ok? && Extension(path.value) in {".sxm", ".dat", ".3ds"}) ==>
            r.Err? && r.error.ValueError? && r == Resolve(basePath, number, keyword, glob, other))
  {
    var path := ResolvePath(basePath, number, keyword, glob);
    if path.Ok? {
      var ext := Extension(path.value);
      if ext in {".sxm", ".dat", ".3ds"} {
        var f := FormatOf(ext).value;
        assert ExtensionOf(f) == ext;
      }
    }
  }
}
