/**
 * Hector's structured exception record, the helpers that build it at a raise
 * site (the H_THROW, H_RETHROW and H_ASSERT macros), and the text it is
 * rendered as. A raise site's `__func__`, `__FILE__` and `__LINE__` are passed
 * in as a `Site`; unwinding is replaced by the `Status` and `Result` values
 * that carry the record back to the caller.
 */
module HExceptions {
  import opened Wrappers
  import opened Decimal

  /** The thrown record: message, raising function, file basename, full path and line. */
  datatype HException = HException(msg: string, func: string, file: string, fullfile: string, linenum: int)

  /** What `__func__`, `__FILE__` and `__LINE__` expand to where a macro is used. */
  datatype Site = Site(func: string, fullfile: string, line: int)

  /** The outcome of an operation that returns nothing or throws an HException. */
  datatype Status = Success | Failure(error: HException)

  /** The outcome of an operation that returns a value or throws an HException. */
  datatype Result<+T> = Ok(value: T) | Err(error: HException)

  /** `std::string::find_last_of(c)`: the index of the last `c`, None standing for `npos`. */
  function FindLastOf(s: string, c: char): (r: Option<nat>)
    ensures r.None? <==> c !in s
    ensures r.Some? ==> r.value < |s| && s[r.value] == c
    ensures r.Some? ==> forall j :: r.value < j < |s| ==> s[j] != c
  {
    if s == [] then None
    else if s[|s| - 1] == c then Some(|s| - 1)
    else FindLastOf(s[..|s| - 1], c)
  }

  /**
   * `h_exception::extractFilename`: what follows the last '/', or failing
   * that the last '\', or the whole path when it has neither.
   */
  function ExtractFilename(path: string): (r: string)
    ensures |r| <= |path| && r == path[|path| - |r|..]
    ensures '/' !in r
    ensures '/' !in path ==> '\\' !in r
  {
    var pos := FindLastOf(path, '/');
    var pos' := if pos.None? then FindLastOf(path, '\\') else pos;
    path[(if pos'.None? then 0 else pos'.value + 1)..]
  }

  /** The last '/' decides, whatever follows it, a '\' included. */
  lemma ExtractFilenameAfterSlash(dir: string, name: string)
    requires '/' !in name
    ensures ExtractFilename(dir + "/" + name) == name
  {
    var path := dir + "/" + name;
    assert path[|dir|] == '/';
    assert FindLastOf(path, '/') == Some(|dir|);
    assert path[|dir| + 1..] == name;
  }

  /** With no '/' anywhere, the last '\' decides. */
  lemma ExtractFilenameAfterBackslash(dir: string, name: string)
    requires '/' !in dir && '/' !in name && '\\' !in name
    ensures ExtractFilename(dir + "\\" + name) == name
  {
    var path := dir + "\\" + name;
    assert path[|dir|] == '\\';
    assert '/' !in path by {
      forall k | 0 <= k < |path| ensures path[k] != '/' {
        if k < |dir| { assert path[k] == dir[k]; }
        else if k > |dir| { assert path[k] == name[k - |dir| - 1]; }
      }
    }
    assert FindLastOf(path, '\\') == Some(|dir|);
    assert path[|dir| + 1..] == name;
  }

  /** With neither separator the path is its own file name. */
  lemma ExtractFilenameNoSeparator(path: string)
    requires '/' !in path && '\\' !in path
    ensures ExtractFilename(path) == path
  {
  }

  // extractFilename keeps find_last_of's `size_t` result in an `unsigned long`.
  // Where `unsigned long` is narrower than `size_t` (32 against 64 bits on
  // 64-bit Windows), `npos` is truncated on the way in, the test against
  // `npos` never succeeds, and the search for '\' is never reached.

  /** One more than the largest `size_t`. */
  const SizeModulus: nat := 0x1_0000_0000_0000_0000
  /** `std::string::npos`: the largest `size_t`. */
  const Npos: nat := SizeModulus - 1
  /** One more than the largest `unsigned long` where it has 32 bits (LLP64). */
  const ULong32Modulus: nat := 0x1_0000_0000
  /** One more than the largest `unsigned long` where it has 64 bits (LP64). */
  const ULong64Modulus: nat := SizeModulus

  /** find_last_of as the `size_t` it returns. */
  function FindLastOfSize(s: string, c: char): (r: nat)
    requires |s| < Npos
    ensures r < SizeModulus
    ensures r == Npos <==> c !in s
    ensures c in s ==> Some(r) == FindLastOf(s, c)
  {
    match FindLastOf(s, c)
    case None => Npos
    case Some(i) => i
  }

  /** A `size_t` stored in an `unsigned long`: reduced modulo the `unsigned long` range. */
  function ToULong(x: nat, ulongModulus: nat): (r: nat)
    requires ulongModulus == ULong32Modulus || ulongModulus == ULong64Modulus
    ensures r == x % ulongModulus
    ensures r < ulongModulus && r <= x
    ensures x < ulongModulus ==> r == x
    ensures x == Npos && ulongModulus == ULong32Modulus ==> r == ULong32Modulus - 1
  {
    if x < ulongModulus then x
    else
      ModBelow(x, ulongModulus);
      x % ulongModulus
  }

  lemma ModBelow(x: nat, m: nat)
    requires 0 < m <= x
    ensures x % m < m && x % m <= x
  {
  }

  /** extractFilename as written, for an `unsigned long` with the given modulus. */
  function ExtractFilenameAsWritten(path: string, ulongModulus: nat): (r: string)
    requires ulongModulus == ULong32Modulus || ulongModulus == ULong64Modulus
    requires |path| < Npos
    ensures |r| <= |path| && r == path[|path| - |r|..]
  {
    var pos := ToULong(FindLastOfSize(path, '/'), ulongModulus);
    var pos' := if pos == Npos then ToULong(FindLastOfSize(path, '\\'), ulongModulus) else pos;
    var start := if pos' == Npos then 0 else ToULong(pos' + 1, ulongModulus);
    assert start <= |path| by {
      if pos' != Npos && pos' + 1 >= ulongModulus {
        assert pos' + 1 == ulongModulus;
        assert start == 0;
      }
    }
    path[start..]
  }

  /** Where `unsigned long` is as wide as `size_t`, the code computes ExtractFilename. */
  lemma ExtractFilenameLP64(path: string)
    requires |path| < Npos
    ensures ExtractFilenameAsWritten(path, ULong64Modulus) == ExtractFilename(path)
  {
    var slash := FindLastOfSize(path, '/');
    var back := FindLastOfSize(path, '\\');
    assert ToULong(slash, ULong64Modulus) == slash;
    assert ToULong(back, ULong64Modulus) == back;
  }

  /** Where `unsigned long` has 32 bits, a path without '/' comes back whole, '\' or not. */
  lemma ExtractFilenameLLP64(path: string)
    requires |path| < Npos && '/' !in path
    ensures ExtractFilenameAsWritten(path, ULong32Modulus) == path
  {
    var pos := ToULong(FindLastOfSize(path, '/'), ULong32Modulus);
    assert pos == ULong32Modulus - 1;
    assert ToULong(pos + 1, ULong32Modulus) == 0;
  }

  /** A Windows-style path that shows the two apart. */
  lemma ExtractFilenameLLP64Counterexample()
    ensures ExtractFilename("src\\core.cpp") == "core.cpp"
    ensures ExtractFilenameAsWritten("src\\core.cpp", ULong32Modulus) == "src\\core.cpp"
  {
    assert "src\\core.cpp" == "src" + "\\" + "core.cpp";
    ExtractFilenameAfterBackslash("src", "core.cpp");
    ExtractFilenameLLP64("src\\core.cpp");
  }

  /** H_THROW(s): a record raised at `site` with message `s`. */
  function Throw(s: string, site: Site): (e: HException)
    ensures e.msg == s
    ensures e.func == site.func && e.fullfile == site.fullfile && e.linenum == site.line
    ensures e.file == ExtractFilename(site.fullfile)
  {
    HException(s, site.func, ExtractFilename(site.fullfile), site.fullfile, site.line)
  }

  /** The file of a raised record is a separator-free tail of its full path. */
  lemma ThrowFileIsBasename(s: string, site: Site)
    ensures var e := Throw(s, site);
      |e.file| <= |e.fullfile| && e.file == e.fullfile[|e.fullfile| - |e.file|..] && '/' !in e.file
  {
  }

  /**
   * H_RETHROW(oe, s): a new record raised at `site` whose message is `s`, then
   * " - ", then the original message; nothing of the original's site survives.
   */
  function Rethrow(oe: HException, s: string, site: Site): (e: HException)
    ensures e.msg == s + " - " + oe.msg
    ensures e.func == site.func && e.fullfile == site.fullfile && e.linenum == site.line
    ensures e.file == ExtractFilename(site.fullfile)
  {
    Throw(s + " - " + oe.msg, site)
  }

  /** What H_ASSERT puts before its message. */
  const AssertionPrefix := "Assertion failed: "

  /** H_ASSERT(x, s): nothing when `x` holds, otherwise a raise of "Assertion failed: " + s. */
  function Assert(x: bool, s: string, site: Site): (r: Status)
    ensures r.Success? <==> x
    ensures r.Failure? ==> r.error == Throw(AssertionPrefix + s, site)
  {
    if x then Success else Failure(Throw(AssertionPrefix + s, site))
  }

  /** A record rethrown once per layer, innermost layer first. */
  function RethrowThrough(root: HException, layers: seq<(string, Site)>): HException
  {
    if layers == [] then root
    else
      var last := layers[|layers| - 1];
      Rethrow(RethrowThrough(root, layers[..|layers| - 1]), last.0, last.1)
  }

  /**
   * However many layers rethrow it, the root cause's message survives as the
   * tail of the final message, and the site is the outermost layer's.
   */
  lemma {:induction false} RootCauseSurvives(root: HException, layers: seq<(string, Site)>)
    ensures var e := RethrowThrough(root, layers);
      |root.msg| <= |e.msg| && e.msg[|e.msg| - |root.msg|..] == root.msg
    ensures layers != [] ==>
      var e := RethrowThrough(root, layers);
      var site := layers[|layers| - 1].1;
      e.func == site.func && e.fullfile == site.fullfile && e.linenum == site.line
  {
    if layers != [] {
      var inner := RethrowThrough(root, layers[..|layers| - 1]);
      RootCauseSurvives(root, layers[..|layers| - 1]);
      var wrap := layers[|layers| - 1].0;
      var m := RethrowThrough(root, layers).msg;
      assert m == wrap + " - " + inner.msg;
      assert m[|m| - |inner.msg|..] == inner.msg;
      assert m[|m| - |root.msg|..] == inner.msg[|inner.msg| - |root.msg|..];
    }
  }

  const MsgHeader := "msg:  \t"
  const FuncHeader := "func: \t"
  const FileHeader := "file: \t"
  const FfileHeader := "ffile:\t"
  const LineHeader := "line: \t"

  /** Each line followed by a line break. */
  function Lines(ls: seq<string>): string
  {
    if ls == [] then [] else ls[0] + "\n" + Lines(ls[1..])
  }

  /** True when `s` ends with `t`. */
  predicate EndsWith(s: string, t: string) {
    |t| <= |s| && s[|s| - |t|..] == t
  }

  /** The text of several lines ends with the last of them and its line break. */
  lemma {:induction false} LinesLast(ls: seq<string>)
    requires |ls| > 0
    ensures EndsWith(Lines(ls), ls[|ls| - 1] + "\n")
  {
    if |ls| > 1 {
      LinesLast(ls[1..]);
      assert ls[1..][|ls[1..]| - 1] == ls[|ls| - 1];
      var rest := Lines(ls[1..]);
      var t := ls[|ls| - 1] + "\n";
      var whole := ls[0] + "\n" + rest;
      assert whole[|whole| - |t|..] == rest[|rest| - |t|..];
    }
  }

  /**
   * `operator<<(ostream&, const h_exception&)`: message, function, file and
   * full path on a line each, a blank line, then the line number.
   */
  function Render(he: HException): (r: string)
    ensures MsgHeader + he.msg + "\n" <= r
    ensures EndsWith(r, LineHeader + IntToString(he.linenum) + "\n")
  {
    var ls := [MsgHeader + he.msg, FuncHeader + he.func, FileHeader + he.file,
               FfileHeader + he.fullfile, "", LineHeader + IntToString(he.linenum)];
    LinesLast(ls);
    Lines(ls)
  }

  /** The text up to the first line break and the text after it; None without a break. */
  function SplitLine(s: string): (r: Option<(string, string)>)
  {
    if s == [] then None
    else if s[0] == '\n' then Some(([], s[1..]))
    else match SplitLine(s[1..])
      case None => None
      case Some(p) => Some(([s[0]] + p.0, p.1))
  }

  /** The value of a line that opens with `header`, and the text after that line. */
  function ReadField(s: string, header: string): Option<(string, string)>
  {
    match SplitLine(s)
    case None => None
    case Some(p) =>
      if |header| <= |p.0| && p.0[..|header|] == header then Some((p.0[|header|..], p.1)) else None
  }

  /** Reads a rendered record back: the inverse of Render for line-free fields. */
  function Unrender(s: string): Option<HException>
  {
    match ReadField(s, MsgHeader)
    case None => None
    case Some(m) =>
      match ReadField(m.1, FuncHeader)
      case None => None
      case Some(f) =>
        match ReadField(f.1, FileHeader)
        case None => None
        case Some(fi) =>
          match ReadField(fi.1, FfileHeader)
          case None => None
          case Some(ff) =>
            match ReadField(ff.1, [])
            case None => None
            case Some(blank) =>
              if blank.0 != [] then None
              else match ReadField(blank.1, LineHeader)
                case None => None
                case Some(ln) =>
                  if ln.1 != [] then None
                  else match ParseInt(ln.0)
                    case None => None
                    case Some(n) => Some(HException(m.0, f.0, fi.0, ff.0, n))
  }

  predicate LineFree(he: HException) {
    '\n' !in he.msg && '\n' !in he.func && '\n' !in he.file && '\n' !in he.fullfile
  }

  lemma {:induction false} SplitLineAt(a: string, b: string)
    requires '\n' !in a
    ensures SplitLine(a + "\n" + b) == Some((a, b))
  {
    var s := a + "\n" + b;
    if a == [] {
      assert s[1..] == b;
    } else {
      assert s[1..] == a[1..] + "\n" + b;
      SplitLineAt(a[1..], b);
      assert [a[0]] + a[1..] == a;
    }
  }

  lemma ReadFieldAt(header: string, v: string, rest: string)
    requires '\n' !in header && '\n' !in v
    ensures ReadField(header + v + "\n" + rest, header) == Some((v, rest))
  {
    assert header + v + "\n" + rest == (header + v) + "\n" + rest;
    SplitLineAt(header + v, rest);
    assert (header + v)[..|header|] == header;
    assert (header + v)[|header|..] == v;
  }

  /** Rendering loses nothing: a record whose text fields hold no line break is read back whole. */
  lemma RenderRoundTrip(he: HException)
    requires LineFree(he)
    ensures Unrender(Render(he)) == Some(he)
  {
    var line := IntToString(he.linenum);
    IntToStringRoundTrip(he.linenum);
    var ls := [MsgHeader + he.msg, FuncHeader + he.func, FileHeader + he.file,
               FfileHeader + he.fullfile, "", LineHeader + line];
    assert Lines(ls[6..]) == [];
    ReadFieldAt(LineHeader, line, []);
    ReadFieldAt([], [], Lines(ls[5..]));
    ReadFieldAt(FfileHeader, he.fullfile, Lines(ls[4..]));
    ReadFieldAt(FileHeader, he.file, Lines(ls[3..]));
    ReadFieldAt(FuncHeader, he.func, Lines(ls[2..]));
    ReadFieldAt(MsgHeader, he.msg, Lines(ls[1..]));
  }

  /** Two line-free records that render alike are the same record. */
  lemma RenderInjective(a: HException, b: HException)
    requires LineFree(a) && LineFree(b)
    requires Render(a) == Render(b)
    ensures a == b
  {
    RenderRoundTrip(a);
    RenderRoundTrip(b);
  }
}
