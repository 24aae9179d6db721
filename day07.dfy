/** Day 7: a terminal session rebuilt as a file system, and directory sizes
    (src/days/day7.rs). */
module Day07 {
  import opened Wrappers
  import opened Text

  /** An entry: a file with its size, or a directory (`size` stays `None` until the
      sizes are calculated). */
  datatype FileInfo = FileInfo(size: Option<nat>, name: string, dir: bool)

  datatype Command = Cd(path: string) | Ls

  datatype Token = Command(cmd: Command) | Listing(info: FileInfo)

  /** What `Token::from_str` gives for one line: a token, an `Err` for an unknown
      command, or a panic on a missing word. */
  datatype LineResult = Parsed(token: Token) | NotACommand(name: string) | Panic

  /** Values of `usize` are below this bound. */
  const UsizeBound: nat := 0x1_0000_0000_0000_0000

  /** `FileInfo::new_dir`. */
  function NewDir(name: string): FileInfo {
    FileInfo(None, name, true)
  }

  // ---------------------------------------------------------------------------
  // Tokens

  /** `Token::from_str`: a line starting with `$` is a command named by its second
      word; any other line is a listing whose first word is a size or anything else
      (a directory) and whose second word is the name. */
  function FromStr(s: string): LineResult {
    var words := Words(s);
    if |s| > 0 && s[0] == '$' then
      if |words| < 2 then Panic
      else if words[1] == "cd" then
        if |words| < 3 then Panic else Parsed(Command(Cd(words[2])))
      else if words[1] == "ls" then Parsed(Command(Ls))
      else NotACommand(words[1])
    else if |words| < 2 then Panic
    else
      var size := ParseUnsigned(words[0], UsizeBound);
      Parsed(Listing(FileInfo(size, words[1], size.None?)))
  }

  /** A non-empty run of characters without whitespace, as `split_whitespace` yields. */
  predicate IsWord(w: string) {
    w != [] && forall i :: 0 <= i < |w| ==> !IsWhitespace(w[i])
  }

  /** The tokens the parser produces: names are words, and an entry is a directory
      exactly when it has no size. */
  predicate TokenOk(t: Token) {
    match t
    case Command(Cd(path)) => IsWord(path)
    case Command(Ls) => true
    case Listing(info) =>
      (IsWord(info.name) && (info.dir <==> info.size.None?) &&
       (info.size.Some? ==> info.size.value < UsizeBound))
  }

  /** `parse`: every line through `from_str`; `Err` lines are dropped by `flat_map`,
      and `None` stands for a panic on any line. */
  function ParseLines(lines: seq<string>): (r: Option<seq<Token>>)
    ensures r.Some? ==> forall i :: 0 <= i < |r.value| ==> TokenOk(r.value[i])
  {
    if lines == [] then Some([])
    else
      var first := FromStr(lines[0]);
      FromStrOk(lines[0]);
      match first
      case Panic => None
      case NotACommand(_) => ParseLines(lines[1..])
      case Parsed(t) =>
        match ParseLines(lines[1..])
        case None => None
        case Some(ts) => Some([t] + ts)
  }

  function Parse(input: string): (r: Option<seq<Token>>)
    ensures r.Some? ==> forall i :: 0 <= i < |r.value| ==> TokenOk(r.value[i])
  {
    ParseLines(Lines(input))
  }

  lemma {:induction false} WordsAreWords(s: string)
    ensures forall i :: 0 <= i < |Words(s)| ==> IsWord(Words(s)[i])
    decreases |s|
  {
    var t := TrimStart(s);
    if t != [] {
      var n := WordLength(t);
      WordLengthWord(t);
      WordsAreWords(t[n..]);
    }
  }

  lemma {:induction false} WordLengthWord(t: string)
    requires t != [] && !IsWhitespace(t[0])
    ensures IsWord(t[..WordLength(t)])
    decreases |t|
  {
    var n := WordLength(t);
    if |t| > 1 && !IsWhitespace(t[1]) {
      WordLengthWord(t[1..]);
      assert t[..n] == [t[0]] + t[1..][..n - 1];
    } else {
      assert n == 1;
    }
  }

  lemma FromStrOk(s: string)
    ensures FromStr(s).Parsed? ==> TokenOk(FromStr(s).token)
  {
    WordsAreWords(s);
  }

  /** The line the terminal shows for a token. */
  function Render(t: Token): string {
    match t
    case Command(Cd(path)) => "$ cd " + path
    case Command(Ls) => "$ ls"
    case Listing(info) =>
      if info.dir || info.size.None? then "dir " + info.name
      else Decimal(info.size.value) + " " + info.name
  }

  lemma {:induction false} WordLengthOf(a: string, rest: string)
    requires IsWord(a) && (rest == [] || IsWhitespace(rest[0]))
    ensures WordLength(a + rest) == |a|
    decreases |a|
  {
    if |a| > 1 {
      assert (a + rest)[1..] == a[1..] + rest;
      WordLengthOf(a[1..], rest);
    } else {
      assert (a + rest)[1..] == rest;
    }
  }

  /** `split_whitespace` of a word, a space and more text. */
  lemma WordsCons(a: string, b: string)
    requires IsWord(a)
    ensures Words(a + " " + b) == [a] + Words(b)
  {
    var s := a + " " + b;
    assert TrimStart(s) == s;
    WordLengthOf(a, " " + b);
    assert s == a + (" " + b);
    assert s[..|a|] == a && s[|a|..] == " " + b;
    assert (" " + b)[1..] == b;
    assert TrimStart(" " + b) == TrimStart(b);
  }

  lemma WordsSingle(a: string)
    requires IsWord(a)
    ensures Words(a) == [a]
  {
    assert TrimStart(a) == a;
    WordLengthOf(a, []);
    assert a + [] == a;
    assert a[|a|..] == [];
  }

  lemma DecimalIsWord(n: nat)
    ensures IsWord(Decimal(n)) && ParseUnsigned(Decimal(n), n + 1) == Some(n)
  {
    DecimalRoundTrip(n);
  }

  /** Every token the parser accepts is read back from its line. */
  lemma FromStrRender(t: Token)
    requires TokenOk(t)
    ensures FromStr(Render(t)) == Parsed(t)
  {
    match t
    case Command(Cd(path)) => CdLine(path);
    case Command(Ls) => LsLine();
    case Listing(info) =>
      if info.dir {
        DirLine(info.name);
      } else {
        FileLine(info.size.value, info.name);
      }
  }

  /** `$ cd X` is `Cd(X)`. */
  lemma CdLine(path: string)
    requires IsWord(path)
    ensures FromStr("$ cd " + path) == Parsed(Command(Cd(path)))
  {
    assert "$ cd " + path == "$" + " " + ("cd" + " " + path);
    WordsCons("cd", path);
    WordsSingle(path);
    WordsCons("$", "cd" + " " + path);
  }

  /** `$ ls` is `Ls`. */
  lemma LsLine()
    ensures FromStr("$ ls") == Parsed(Command(Ls))
  {
    assert "$ ls" == "$" + " " + "ls";
    WordsSingle("ls");
    WordsCons("$", "ls");
  }

  lemma DirLine(name: string)
    requires IsWord(name)
    ensures FromStr("dir " + name) == Parsed(Listing(NewDir(name)))
  {
    var s := "dir " + name;
    assert s == "dir" + " " + name;
    assert s[0] == 'd';
    WordsSingle(name);
    WordsCons("dir", name);
    assert ParseUnsigned("dir", UsizeBound) == None by {
      assert !IsDigit("dir"[0]);
    }
  }

  lemma FileLine(n: nat, name: string)
    requires IsWord(name) && n < UsizeBound
    ensures FromStr(Decimal(n) + " " + name) == Parsed(Listing(FileInfo(Some(n), name, false)))
  {
    var s := Decimal(n) + " " + name;
    DecimalIsWord(n);
    assert IsDigit(s[0]);
    WordsSingle(name);
    WordsCons(Decimal(n), name);
    assert ParseUnsigned(Decimal(n), UsizeBound) == Some(n);
  }

  /** A command other than `cd` and `ls` is an `Err`. */
  lemma UnknownCommand(name: string, rest: string)
    requires IsWord(name) && name != "cd" && name != "ls"
    ensures FromStr("$ " + name + " " + rest) == NotACommand(name)
  {
    assert "$ " + name + " " + rest == "$" + " " + (name + " " + rest);
    WordsCons(name, rest);
    WordsCons("$", name + " " + rest);
  }

  /** A listing line is a file exactly when its first word is a number. */
  lemma ListingLine(first: string, name: string)
    requires IsWord(first) && IsWord(name) && first[0] != '$'
    ensures FromStr(first + " " + name) ==
      Parsed(Listing(FileInfo(ParseUnsigned(first, UsizeBound), name, ParseUnsigned(first, UsizeBound).None?)))
  {
    WordsCons(first, name);
    WordsSingle(name);
  }

  // ---------------------------------------------------------------------------
  // Paths

  /** `change_dir`: `/` returns to the root, `..` leaves the current directory (nothing
      happens at the root), any other name enters that directory. */
  function Navigate(cwd: seq<string>, path: string): seq<string> {
    if path == "/" then []
    else if path == ".." then (if cwd == [] then [] else cwd[..|cwd| - 1])
    else cwd + [path]
  }

  /** `Vec::join`. */
  function JoinWith(xs: seq<string>, sep: string): string {
    if xs == [] then ""
    else if |xs| == 1 then xs[0]
    else xs[0] + sep + JoinWith(xs[1..], sep)
  }

  /** `cwd_str`: the root `/`, or `/a/b/` for the directories entered. */
  function CwdStr(cwd: seq<string>): (s: string)
    ensures |s| > 0 && s[0] == '/' && s[|s| - 1] == '/'
  {
    "/" + JoinWith(cwd, "/") + (if cwd == [] then "" else "/")
  }

  /** `absolute_path`: the key of a directory, with a trailing `/`. */
  function AbsolutePath(cwd: seq<string>, dir: string): string {
    CwdStr(cwd) + dir + "/"
  }

  /** The key `add_file` uses: no trailing `/`. */
  function FileKey(cwd: seq<string>, name: string): string {
    CwdStr(cwd) + name
  }

  lemma {:induction false} JoinWithAppend(xs: seq<string>, d: string, sep: string)
    requires xs != []
    ensures JoinWith(xs + [d], sep) == JoinWith(xs, sep) + sep + d
  {
    if |xs| == 1 {
      assert (xs + [d])[1..] == [d];
    } else {
      assert (xs + [d])[1..] == xs[1..] + [d];
      JoinWithAppend(xs[1..], d, sep);
    }
  }

  /** Each directory entered adds its name and a `/`. */
  lemma CwdStrAppend(cwd: seq<string>, d: string)
    ensures CwdStr(cwd + [d]) == CwdStr(cwd) + d + "/"
  {
    if cwd == [] {
      assert cwd + [d] == [d];
    } else {
      JoinWithAppend(cwd, d, "/");
    }
  }

  /** Entering a directory makes the current path the key `add_dir` gave it, and `..`
      undoes the step. */
  lemma EnterAndLeave(cwd: seq<string>, d: string)
    requires d != "/" && d != ".."
    ensures CwdStr(Navigate(cwd, d)) == AbsolutePath(cwd, d)
    ensures Navigate(Navigate(cwd, d), "..") == cwd
  {
    CwdStrAppend(cwd, d);
    assert (cwd + [d])[..|cwd|] == cwd;
  }

  /** The session of the source's file-system test: `/`, then `/a/`, then `/` again. */
  lemma CwdSample()
    ensures CwdStr([]) == "/" && AbsolutePath([], "a") == "/a/"
    ensures CwdStr(Navigate([], "a")) == "/a/" && CwdStr(Navigate(Navigate([], "a"), "..")) == "/"
  {
    EnterAndLeave([], "a");
  }

  // ---------------------------------------------------------------------------
  // Entries

  /** The `BTreeMap<String, FileInfo>` as a list of entries with distinct keys. */
  type Entries = seq<(string, FileInfo)>

  predicate UniqueKeys(fs: Entries) {
    forall i, j :: 0 <= i < j < |fs| ==> fs[i].0 != fs[j].0
  }

  function Lookup(fs: Entries, key: string): (r: Option<FileInfo>)
    ensures r.Some? <==> exists i :: 0 <= i < |fs| && fs[i].0 == key
    ensures r.Some? ==> exists i :: 0 <= i < |fs| && fs[i] == (key, r.value)
  {
    if fs == [] then None
    else if fs[0].0 == key then Some(fs[0].1)
    else
      var r := Lookup(fs[1..], key);
      assert forall i :: 0 < i < |fs| ==> fs[i] == fs[1..][i - 1];
      r
  }

  /** `BTreeMap::insert`: the key now maps to `info` (see `PutLookup`); entries keep
      distinct keys. */
  function Put(fs: Entries, key: string, info: FileInfo): (r: Entries)
    ensures forall i :: 0 <= i < |r| ==> r[i] == (key, info) || r[i] in fs
    ensures UniqueKeys(fs) ==> UniqueKeys(r)
  {
    if fs == [] then [(key, info)]
    else if fs[0].0 == key then
      var r := [(key, info)] + fs[1..];
      assert forall i :: 0 < i < |r| ==> r[i] == fs[i];
      r
    else
      var rest := Put(fs[1..], key, info);
      var r := [fs[0]] + rest;
      assert forall i :: 0 < i < |r| ==> r[i] == rest[i - 1];
      assert UniqueKeys(fs) ==> forall i :: 0 < i < |r| ==> r[i].0 != fs[0].0 by {
        if UniqueKeys(fs) {
          forall i | 0 < i < |r| ensures r[i].0 != fs[0].0 {
            if r[i] != (key, info) {
              var j :| 0 <= j < |fs[1..]| && fs[1..][j] == r[i];
              assert fs[j + 1] == r[i];
            }
          }
        }
      }
      r
  }

  /** After `Put` the key maps to the new entry and every other key is unchanged. */
  lemma {:induction false} PutLookup(fs: Entries, key: string, info: FileInfo, k: string)
    ensures Lookup(Put(fs, key, info), k) == if k == key then Some(info) else Lookup(fs, k)
  {
    if fs != [] && fs[0].0 != key {
      PutLookup(fs[1..], key, info, k);
    }
  }

  /** Every file entry has a size (`info.size.unwrap()` never fails on a file). */
  predicate FilesSized(fs: Entries) {
    forall i :: 0 <= i < |fs| ==> fs[i].1.dir || fs[i].1.size.Some?
  }

  /** Every directory entry has a size, as after `calculate_sizes`. */
  predicate DirsSized(fs: Entries) {
    forall i :: 0 <= i < |fs| ==> !fs[i].1.dir || fs[i].1.size.Some?
  }

  /** Every directory key ends with `/`. */
  predicate DirKeys(fs: Entries) {
    forall i :: 0 <= i < |fs| ==> fs[i].1.dir ==> fs[i].0 != [] && fs[i].0[|fs[i].0| - 1] == '/'
  }

  /** Every key is absolute. */
  predicate Rooted(fs: Entries) {
    forall i :: 0 <= i < |fs| ==> fs[i].0 != [] && fs[i].0[0] == '/'
  }

  /** The state `FileSystem` keeps between calls. */
  predicate Consistent(fs: Entries) {
    UniqueKeys(fs) && FilesSized(fs) && DirKeys(fs) && Rooted(fs) &&
    Lookup(fs, "/").Some? && Lookup(fs, "/").value.dir
  }

  // ---------------------------------------------------------------------------
  // Sizes

  /** `Ord for String`: lexicographic by character. */
  predicate Lt(a: string, b: string)
    decreases |a|
  {
    if a == [] then b != []
    else b != [] && (a[0] < b[0] || (a[0] == b[0] && Lt(a[1..], b[1..])))
  }

  predicate Le(a: string, b: string) {
    a == b || Lt(a, b)
  }

  /** The end of the range `from..to`: the key with its last character moved one up
      (for a directory key, the final `/` becomes `0`). */
  function Bump(p: string): (r: string)
    requires p != [] && p[|p| - 1] == '/'
    ensures r == p[..|p| - 1] + "0"
  {
    p[..|p| - 1] + [(p[|p| - 1] as int + 1) as char]
  }

  /** The keys of the range `p..Bump(p)` are exactly the keys that start with `p`. */
  lemma {:induction false} RangeIsPrefix(p: string, k: string)
    requires p != [] && p[|p| - 1] == '/'
    ensures Le(p, k) && Lt(k, Bump(p)) <==> StartsWith(k, p)
    decreases |p|
  {
    if |p| == 1 {
      assert Bump(p) == "0" && p == "/";
      if k != [] && k[0] == '/' {
        assert k[..1] == p;
        assert Lt(k, "0");
        assert k == "/" || Lt(p, k);
      }
    } else if k != [] && k[0] == p[0] {
      RangeIsPrefix(p[1..], k[1..]);
      assert Bump(p)[1..] == Bump(p[1..]);
      assert Bump(p)[0] == p[0];
      if StartsWith(k, p) {
        assert k[1..][..|p| - 1] == k[..|p|][1..];
      }
      if StartsWith(k[1..], p[1..]) {
        assert k[..|p|] == [k[0]] + k[1..][..|p| - 1];
      }
      assert p == k <==> p[1..] == k[1..] by {
        if p[1..] == k[1..] {
          assert p == [p[0]] + p[1..] && k == [k[0]] + k[1..];
        }
      }
    } else {
      assert Bump(p)[0] == p[0];
    }
  }

  /** The sizes `calculate_sizes` adds for the range `from..to`: files only. */
  function RangeTotal(fs: Entries, from: string, to: string): nat
    requires FilesSized(fs)
  {
    if fs == [] then 0
    else
      (if !fs[0].1.dir && Le(from, fs[0].0) && Lt(fs[0].0, to) then fs[0].1.size.value else 0) +
      RangeTotal(fs[1..], from, to)
  }

  /** The total size of the files below a directory. */
  function PrefixTotal(fs: Entries, p: string): nat
    requires FilesSized(fs)
  {
    if fs == [] then 0
    else
      (if !fs[0].1.dir && StartsWith(fs[0].0, p) then fs[0].1.size.value else 0) +
      PrefixTotal(fs[1..], p)
  }

  lemma {:induction false} RangeTotalIsPrefixTotal(fs: Entries, p: string)
    requires FilesSized(fs) && p != [] && p[|p| - 1] == '/'
    ensures RangeTotal(fs, p, Bump(p)) == PrefixTotal(fs, p)
  {
    if fs != [] {
      RangeIsPrefix(p, fs[0].0);
      RangeTotalIsPrefixTotal(fs[1..], p);
    }
  }

  /** Two entry lists with the same keys, the same kinds and the same files. */
  predicate SameFiles(a: Entries, b: Entries) {
    |a| == |b| &&
    forall i :: 0 <= i < |a| ==> a[i].0 == b[i].0 && a[i].1.dir == b[i].1.dir && (!a[i].1.dir ==> a[i] == b[i])
  }

  lemma {:induction false} SameFilesRange(a: Entries, b: Entries, from: string, to: string)
    requires SameFiles(a, b) && FilesSized(a) && FilesSized(b)
    ensures RangeTotal(a, from, to) == RangeTotal(b, from, to)
  {
    if a != [] {
      assert SameFiles(a[1..], b[1..]) by {
        forall i | 0 <= i < |a[1..]|
          ensures a[1..][i].0 == b[1..][i].0 && a[1..][i].1.dir == b[1..][i].1.dir
          ensures !a[1..][i].1.dir ==> a[1..][i] == b[1..][i]
        {
          assert a[1..][i] == a[i + 1] && b[1..][i] == b[i + 1];
        }
      }
      SameFilesRange(a[1..], b[1..], from, to);
    }
  }

  /** One directory's entry once its size is known. */
  function SizedEntry(fs: Entries, i: nat): (e: (string, FileInfo))
    requires i < |fs| && FilesSized(fs) && DirKeys(fs)
  {
    if fs[i].1.dir then (fs[i].0, fs[i].1.(size := Some(RangeTotal(fs, fs[i].0, Bump(fs[i].0)))))
    else fs[i]
  }

  /** The entries after `calculate_sizes`: each directory holds the total size of the
      files in its key range, and nothing else changes. */
  function Sized(fs: Entries): (r: Entries)
    requires FilesSized(fs) && DirKeys(fs)
    ensures |r| == |fs| && SameFiles(r, fs) && FilesSized(r) && DirsSized(r) && DirKeys(r)
    ensures forall i :: 0 <= i < |fs| ==> r[i] == SizedEntry(fs, i)
  {
    seq(|fs|, i requires 0 <= i < |fs| => SizedEntry(fs, i))
  }

  /** A directory's size is the total of the files whose keys it prefixes. */
  lemma DirSizeIsFilesBelow(fs: Entries, i: nat)
    requires FilesSized(fs) && DirKeys(fs) && i < |fs| && fs[i].1.dir
    ensures Sized(fs)[i].1.size == Some(PrefixTotal(fs, fs[i].0))
  {
    RangeTotalIsPrefixTotal(fs, fs[i].0);
  }

  // ---------------------------------------------------------------------------
  // The file system

  datatype State = State(files: Entries, cwd: seq<string>)

  /** `FileSystem::new`: only the root directory, at the root. */
  function Initial(): (st: State)
    ensures Consistent(st.files)
  {
    var st := State([("/", NewDir("/"))], []);
    assert Lookup(st.files, "/") == Some(NewDir("/"));
    st
  }

  /** One token of the fold in `part1`/`part2`: `cd` moves, `ls` does nothing, a listing
      adds a directory (`add_dir`) or a file (`add_file`). */
  function Step(st: State, t: Token): State {
    match t
    case Command(Cd(path)) => st.(cwd := Navigate(st.cwd, path))
    case Command(Ls) => st
    case Listing(info) =>
      if info.dir then st.(files := Put(st.files, AbsolutePath(st.cwd, info.name), NewDir(info.name)))
      else st.(files := Put(st.files, FileKey(st.cwd, info.name), info))
  }

  function Build(st: State, ts: seq<Token>): State
    decreases |ts|
  {
    if ts == [] then st else Build(Step(st, ts[0]), ts[1..])
  }

  /** No key written by `add_dir` or `add_file` is the root's. */
  lemma KeysBelowRoot(cwd: seq<string>, name: string)
    requires name != []
    ensures |AbsolutePath(cwd, name)| > 1 && |FileKey(cwd, name)| > 1
  {
  }

  /** Writing a key below the root keeps the entries consistent. */
  lemma PutConsistent(fs: Entries, key: string, info: FileInfo)
    requires Consistent(fs) && |key| > 1 && key[0] == '/'
    requires info.dir ==> key[|key| - 1] == '/'
    requires !info.dir ==> info.size.Some?
    ensures Consistent(Put(fs, key, info))
  {
    PutLookup(fs, key, info, "/");
    PutEntries(fs, key, info);
  }

  lemma PutEntries(fs: Entries, key: string, info: FileInfo)
    requires FilesSized(fs) && DirKeys(fs) && Rooted(fs) && |key| > 1 && key[0] == '/'
    requires info.dir ==> key[|key| - 1] == '/'
    requires !info.dir ==> info.size.Some?
    ensures FilesSized(Put(fs, key, info)) && DirKeys(Put(fs, key, info)) && Rooted(Put(fs, key, info))
  {
    var r := Put(fs, key, info);
    forall i | 0 <= i < |r|
      ensures (r[i].1.dir || r[i].1.size.Some?) && r[i].0 != [] && r[i].0[0] == '/'
      ensures r[i].1.dir ==> r[i].0[|r[i].0| - 1] == '/'
    {
      if r[i] != (key, info) {
        var j :| 0 <= j < |fs| && fs[j] == r[i];
      }
    }
  }

  lemma StepConsistent(st: State, t: Token)
    requires Consistent(st.files) && TokenOk(t)
    ensures Consistent(Step(st, t).files)
  {
    match t
    case Command(_) =>
    case Listing(info) =>
      KeysBelowRoot(st.cwd, info.name);
      if info.dir {
        PutConsistent(st.files, AbsolutePath(st.cwd, info.name), NewDir(info.name));
      } else {
        PutConsistent(st.files, FileKey(st.cwd, info.name), info);
      }
  }

  lemma {:induction false} BuildConsistent(st: State, ts: seq<Token>)
    requires Consistent(st.files) && forall i :: 0 <= i < |ts| ==> TokenOk(ts[i])
    ensures Consistent(Build(st, ts).files)
    decreases |ts|
  {
    if ts != [] {
      StepConsistent(st, ts[0]);
      BuildConsistent(Step(st, ts[0]), ts[1..]);
    }
  }

  /** `FileSystem`: the entries and the current directory, updated by the commands. */
  class FileSystem {
    var files: Entries
    var cwd: seq<string>

    /** `FileSystem::new`. */
    constructor()
      ensures State(files, cwd) == Initial()
    {
      files := [("/", NewDir("/"))];
      cwd := [];
    }

    /** `change_dir`. */
    method ChangeDir(path: string)
      modifies this
      ensures cwd == Navigate(old(cwd), path) && files == old(files)
    {
      if path == "/" {
        cwd := [];
      } else if path == ".." {
        if cwd != [] {
          cwd := cwd[..|cwd| - 1];
        }
      } else {
        cwd := cwd + [path];
      }
    }

    /** `add_dir`: a fresh directory entry under the current path. */
    method AddDir(name: string)
      modifies this
      ensures files == Put(old(files), AbsolutePath(cwd, name), NewDir(name)) && cwd == old(cwd)
    {
      files := Put(files, AbsolutePath(cwd, name), NewDir(name));
    }

    /** `add_file`. */
    method AddFile(info: FileInfo)
      modifies this
      ensures files == Put(old(files), FileKey(cwd, info.name), info) && cwd == old(cwd)
    {
      files := Put(files, FileKey(cwd, info.name), info);
    }

    /** The sum `calculate_sizes` takes over one directory's key range. */
    method RangeSize(from: string, to: string) returns (total: nat)
      requires FilesSized(files)
      ensures total == RangeTotal(files, from, to)
    {
      total := 0;
      var j := 0;
      while j < |files|
        invariant 0 <= j <= |files|
        invariant total + RangeTotal(files[j..], from, to) == RangeTotal(files, from, to)
      {
        assert files[j..][1..] == files[j + 1..];
        if !files[j].1.dir && Le(from, files[j].0) && Lt(files[j].0, to) {
          total := total + files[j].1.size.value;
        }
        j := j + 1;
      }
    }

    /** `calculate_sizes`: every directory gets the total size of the files in the range
        from its key to its key with the last character bumped. */
    method CalculateSizes()
      requires FilesSized(files) && DirKeys(files)
      modifies this
      ensures files == Sized(old(files)) && cwd == old(cwd)
    {
      ghost var start := files;
      var i := 0;
      while i < |files|
        invariant 0 <= i <= |files| == |start|
        invariant forall k :: 0 <= k < i ==> files[k] == SizedEntry(start, k)
        invariant forall k :: i <= k < |files| ==> files[k] == start[k]
        invariant SameFiles(files, start) && FilesSized(files) && cwd == old(cwd)
      {
        if files[i].1.dir {
          var from := files[i].0;
          var total := RangeSize(from, Bump(from));
          SameFilesRange(files, start, from, Bump(from));
          files := files[i := (from, files[i].1.(size := Some(total)))];
        }
        i := i + 1;
      }
      assert forall k :: 0 <= k < |files| ==> files[k] == Sized(start)[k];
      assert files == Sized(start);
    }

    /** One token of the fold. */
    method Apply(t: Token)
      modifies this
      ensures State(files, cwd) == Step(old(State(files, cwd)), t)
    {
      match t
      case Command(Cd(path)) => ChangeDir(path);
      case Command(Ls) =>
      case Listing(info) =>
        if info.dir {
          AddDir(info.name);
        } else {
          AddFile(info);
        }
    }
  }

  /** The fold of `part1` and `part2`, then `calculate_sizes`. */
  method Session(ts: seq<Token>) returns (fs: FileSystem)
    requires forall i :: 0 <= i < |ts| ==> TokenOk(ts[i])
    ensures Consistent(Build(Initial(), ts).files)
    ensures fs.files == Sized(Build(Initial(), ts).files)
  {
    fs := new FileSystem();
    var i := 0;
    BuildConsistent(Initial(), ts);
    while i < |ts|
      invariant 0 <= i <= |ts|
      invariant Build(State(fs.files, fs.cwd), ts[i..]) == Build(Initial(), ts)
      invariant Consistent(fs.files)
    {
      assert ts[i..][1..] == ts[i + 1..];
      StepConsistent(State(fs.files, fs.cwd), ts[i]);
      fs.Apply(ts[i]);
      i := i + 1;
    }
    assert ts[i..] == [];
    fs.CalculateSizes();
  }

  // ---------------------------------------------------------------------------
  // Answers

  const SmallLimit: nat := 100000
  const DiskSize: nat := 70000000
  const SpaceNeeded: nat := 30000000

  /** `part1`'s sum: the sizes of the directories of at most 100000. */
  function SmallTotal(fs: Entries): nat
    requires DirsSized(fs)
  {
    if fs == [] then 0
    else
      (if fs[0].1.dir && fs[0].1.size.value <= SmallLimit then fs[0].1.size.value else 0) +
      SmallTotal(fs[1..])
  }

  /** The same sum stated on the entries before the sizes are known: over the directories
      among `ds`, the total of the files in `all` below each one, when that is small. */
  function SmallBelow(ds: Entries, all: Entries): nat
    requires FilesSized(all)
  {
    if ds == [] then 0
    else
      var size := PrefixTotal(all, ds[0].0);
      (if ds[0].1.dir && size <= SmallLimit then size else 0) + SmallBelow(ds[1..], all)
  }

  lemma {:induction false} SmallSuffix(fs: Entries, j: nat)
    requires FilesSized(fs) && DirKeys(fs) && j <= |fs|
    ensures SmallTotal(Sized(fs)[j..]) == SmallBelow(fs[j..], fs)
    decreases |fs| - j
  {
    if j < |fs| {
      SmallSuffix(fs, j + 1);
      assert Sized(fs)[j..][1..] == Sized(fs)[j + 1..];
      assert fs[j..][1..] == fs[j + 1..];
      if fs[j].1.dir {
        DirSizeIsFilesBelow(fs, j);
      }
    }
  }

  /** Part 1 adds, over all directories, the total size of the files below each one
      that is at most 100000. */
  lemma Part1Meaning(fs: Entries)
    requires FilesSized(fs) && DirKeys(fs)
    ensures SmallTotal(Sized(fs)) == SmallBelow(fs, fs)
  {
    SmallSuffix(fs, 0);
    assert Sized(fs)[0..] == Sized(fs) && fs[0..] == fs;
  }

  /** `min` over the sizes of the directories of at least `required`; `None` when there
      is none. */
  function SmallestAtLeast(fs: Entries, required: nat): (r: Option<nat>)
    requires DirsSized(fs)
    ensures r.Some? ==> exists i :: 0 <= i < |fs| && fs[i].1.dir && fs[i].1.size.value == r.value
    ensures r.Some? ==> r.value >= required
    ensures r.Some? ==> forall i :: 0 <= i < |fs| && fs[i].1.dir && fs[i].1.size.value >= required ==>
      r.value <= fs[i].1.size.value
    ensures r.None? ==> forall i :: 0 <= i < |fs| && fs[i].1.dir ==> fs[i].1.size.value < required
  {
    if fs == [] then None
    else
      var rest := SmallestAtLeast(fs[1..], required);
      assert forall i :: 0 < i < |fs| ==> fs[i] == fs[1..][i - 1];
      if fs[0].1.dir && fs[0].1.size.value >= required then
        match rest
        case None => Some(fs[0].1.size.value)
        case Some(m) => Some(if fs[0].1.size.value <= m then fs[0].1.size.value else m)
      else rest
  }

  /** `part2`: the free space is the disk size less the root's size, and the answer is
      the smallest directory that frees enough. `None` where the source panics: the
      root's size exceeds the disk, or more than enough space is free already (both
      `usize` subtractions underflow), or no directory is large enough. */
  function Part2Answer(fs: Entries): Option<nat>
    requires DirsSized(fs)
  {
    match Lookup(fs, "/")
    case None => None
    case Some(root) =>
      if root.size.None? || root.size.value > DiskSize then None
      else
        var unused := DiskSize - root.size.value;
        if unused > SpaceNeeded then None else SmallestAtLeast(fs, SpaceNeeded - unused)
  }

  /** The total size of all files. */
  function FilesTotal(fs: Entries): nat
    requires FilesSized(fs)
  {
    if fs == [] then 0
    else (if fs[0].1.dir then 0 else fs[0].1.size.value) + FilesTotal(fs[1..])
  }

  /** Every key is absolute, so the root holds every file. */
  lemma {:induction false} RootHoldsAll(fs: Entries)
    requires FilesSized(fs) && Rooted(fs)
    ensures PrefixTotal(fs, "/") == FilesTotal(fs)
  {
    if fs != [] {
      assert fs[0].0[..1] == "/";
      RootHoldsAll(fs[1..]);
    }
  }

  /** Entry lists with the same keys in the same places find a key at the same place. */
  lemma {:induction false} LookupSameKeys(a: Entries, b: Entries, k: string)
    requires |a| == |b| && forall i :: 0 <= i < |a| ==> a[i].0 == b[i].0
    requires Lookup(a, k).Some?
    ensures exists i :: (0 <= i < |a| && a[i].0 == k &&
                         Lookup(a, k) == Some(a[i].1) && Lookup(b, k) == Some(b[i].1))
  {
    if a[0].0 != k {
      LookupSameKeys(a[1..], b[1..], k);
      var i :| 0 <= i < |a[1..]| && a[1..][i].0 == k &&
        Lookup(a[1..], k) == Some(a[1..][i].1) && Lookup(b[1..], k) == Some(b[1..][i].1);
      assert a[1..][i] == a[i + 1] && b[1..][i] == b[i + 1];
    }
  }

  /** After the sizes are calculated, the root's size is the total of all files. */
  lemma RootSize(fs: Entries)
    requires Consistent(fs)
    ensures Lookup(Sized(fs), "/").Some?
    ensures Lookup(Sized(fs), "/").value.dir
    ensures Lookup(Sized(fs), "/").value.size == Some(FilesTotal(fs))
  {
    var r := Sized(fs);
    LookupSameKeys(fs, r, "/");
    var i :| 0 <= i < |fs| && fs[i].0 == "/" &&
      Lookup(fs, "/") == Some(fs[i].1) && Lookup(r, "/") == Some(r[i].1);
    DirSizeIsFilesBelow(fs, i);
    RootHoldsAll(fs);
  }

  /** Part 2 fails exactly when the files fill more than the disk or leave more than the
      space needed free. */
  lemma Part2Fails(fs: Entries)
    requires Consistent(fs)
    ensures var total := FilesTotal(fs);
      Part2Answer(Sized(fs)).None? <==> total > DiskSize || DiskSize - total > SpaceNeeded
  {
    var r := Sized(fs);
    var total := FilesTotal(fs);
    RootSize(fs);
    if total <= DiskSize && DiskSize - total <= SpaceNeeded {
      var required := total - (DiskSize - SpaceNeeded);
      var k :| 0 <= k < |r| && r[k] == ("/", Lookup(r, "/").value);
      assert SmallestAtLeast(r, required).Some?;
    }
  }

  /** Otherwise its answer is the total of the files below some directory, the
      smallest such total that frees enough space. */
  lemma Part2Meaning(fs: Entries)
    requires Consistent(fs)
    ensures var total := FilesTotal(fs);
      Part2Answer(Sized(fs)).Some? ==>
        var required := total - (DiskSize - SpaceNeeded);
        var m := Part2Answer(Sized(fs)).value;
        m >= required &&
        (exists i :: 0 <= i < |fs| && fs[i].1.dir && PrefixTotal(fs, fs[i].0) == m) &&
        forall i :: 0 <= i < |fs| && fs[i].1.dir && PrefixTotal(fs, fs[i].0) >= required ==>
          m <= PrefixTotal(fs, fs[i].0)
  {
    var r := Sized(fs);
    RootSize(fs);
    forall i | 0 <= i < |fs| && fs[i].1.dir
      ensures r[i].1.dir && r[i].1.size.value == PrefixTotal(fs, fs[i].0)
    {
      DirSizeIsFilesBelow(fs, i);
    }
  }

  /** `part1` on the parsed tokens. */
  method Part1(ts: seq<Token>) returns (answer: nat)
    requires forall i :: 0 <= i < |ts| ==> TokenOk(ts[i])
    ensures var files := Build(Initial(), ts).files;
      Consistent(files) && answer == SmallTotal(Sized(files))
  {
    var fs := Session(ts);
    answer := SmallTotal(fs.files);
  }

  /** `part2` on the parsed tokens. */
  method Part2(ts: seq<Token>) returns (answer: Option<nat>)
    requires forall i :: 0 <= i < |ts| ==> TokenOk(ts[i])
    ensures var files := Build(Initial(), ts).files;
      Consistent(files) && answer == Part2Answer(Sized(files))
  {
    var fs := Session(ts);
    answer := Part2Answer(fs.files);
  }
}
