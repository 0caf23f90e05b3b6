/** scripts/bin/usb_analyzer.py, `analyze_directory`: one pass over the files of a
    directory tree counting files, unreadable files, bytes, extensions and languages, and
    keeping the ten largest files in a min-heap. The directory walk is an input: each
    file arrives as a `FileEntry` holding its path and the size `lstat` reported, or
    nothing when `lstat` failed; its suffix is computed from the path as pathlib does. */
module UsbScan {
  import opened PyNum
  import opened PySort
  import opened PyStr

  /** A file the walk visits; `size` is None when `lstat` raised. */
  datatype FileEntry = FileEntry(path: string, size: Option<nat>)

  /** A `(size, path)` tuple of the largest-files heap. */
  type Pair = (nat, string)

  /** The result dict of `analyze_directory`; the three counters that are `defaultdict`s
      are maps read through `Get`. */
  datatype Stats = Stats(
    fileCount: nat,
    skipped: nat,
    extensions: map<string, nat>,
    languages: map<string, nat>,
    languagesSize: map<string, nat>,
    sizeBytes: nat,
    largest: seq<Pair>)

  /** Reading a `defaultdict(int)`: a missing key reads as 0. */
  function Get(m: map<string, nat>, k: string): nat {
    if k in m then m[k] else 0
  }

  /** `ext_map`: the language of each known lower-case suffix. */
  const EXT_MAP: map<string, string> := map[
    ".ts" := "TypeScript", ".jsx" := "React (JS)", ".tsx" := "React (TS)",
    ".vue" := "Vue.js", ".c" := "C", ".cpp" := "C++", ".h" := "C/C++ Header", ".cs" := "C#",
    ".java" := "Java", ".go" := "Go", ".rs" := "Rust", ".swift" := "Swift", ".kt" := "Kotlin",
    ".rb" := "Ruby", ".php" := "PHP", ".html" := "HTML", ".htm" := "HTML",
    ".css" := "CSS", ".scss" := "Sass", ".less" := "Less",
    ".sh" := "Shell", ".bash" := "Shell", ".zsh" := "Shell", ".bat" := "Batch", ".ps1" := "PowerShell",
    ".txt" := "Text", ".json" := "JSON", ".yaml" := "YAML", ".yml" := "YAML",
    ".xml" := "XML", ".sql" := "SQL", ".toml" := "TOML", ".ini" := "INI",
    ".jpeg" := "Image", ".png" := "Image", ".gif" := "Image", ".svg" := "Image", ".webp" := "Image",
    ".mp4" := "Video", ".mkv" := "Video", ".mov" := "Video", ".avi" := "Video", ".webm" := "Video",
    ".mp3" := "Audio", ".wav" := "Audio", ".flac" := "Audio", ".m4a" := "Audio", ".ogg" := "Audio",
    ".zip" := "Archive", ".tar" := "Archive", ".gz" := "Archive", ".7z" := "Archive", ".rar" := "Archive",
    ".pdf" := "PDF", ".doc" := "Document", ".docx" := "Document", ".xls" := "Spreadsheet", ".xlsx" := "Spreadsheet",
    ".ppt" := "Presentation", ".pptx" := "Presentation",
    ".md" := "Markdown", ".jpg" := "Image", ".js" := "JavaScript", ".py" := "Python"
  ]

  // ---------------------------------------------------------------- suffixes

  /** `str.rfind(c)`: the index of the last `c` in `s`, or -1 when there is none. */
  function RFind(s: string, c: char): (i: int)
    ensures -1 <= i < |s|
  {
    if s == [] then -1
    else if s[|s| - 1] == c then |s| - 1
    else RFind(s[..|s| - 1], c)
  }

  /** `rfind` gives a `c`, and no `c` follows it. */
  lemma {:induction false} RFindLast(s: string, c: char)
    ensures var i := RFind(s, c); (i >= 0 ==> s[i] == c) && forall k :: i < k < |s| ==> s[k] != c
    decreases |s|
  {
    if s != [] && s[|s| - 1] != c {
      RFindLast(s[..|s| - 1], c);
    }
  }

  /** `PurePath.name` of a walked file's path: what follows the last `/`. */
  function Name(path: string): string {
    path[RFind(path, '/') + 1..]
  }

  /** The name ends the path and holds no `/`. */
  lemma NameShape(path: string)
    ensures '/' !in Name(path) && Name(path) == path[|path| - |Name(path)|..]
  {
    RFindLast(path, '/');
  }

  /** `PurePath.suffix`: from the last `.` of the name on, unless that `.` starts the
      name or ends it, and then nothing. */
  function Suffix(path: string): string {
    var name := Name(path);
    var i := RFind(name, '.');
    if 0 < i < |name| - 1 then name[i..] else ""
  }

  /** A suffix is empty, or a `.` and at least one more character, ending the name and
      neither starting it nor holding another `.`; it is empty exactly when the name ends
      in `.` or holds no `.` after its first character. */
  lemma SuffixShape(path: string)
    ensures var r, n := Suffix(path), Name(path);
      && (r == "" || (2 <= |r| < |n| && r[0] == '.' && '.' !in r[1..] && '/' !in r && r == path[|path| - |r|..]))
      && (r == "" <==> (n != [] && n[|n| - 1] == '.') || forall k :: 0 < k < |n| ==> n[k] != '.')
  {
    var n := Name(path);
    var i := RFind(n, '.');
    var r := Suffix(path);
    NameShape(path);
    RFindLast(n, '.');
    if 0 < i < |n| - 1 {
      assert r == n[i..];
      assert forall k :: 1 <= k < |r| ==> r[k] == n[i + k];
      assert n[i] == '.';
    } else if i == |n| - 1 && i >= 0 {
      assert n[|n| - 1] == '.';
    }
  }

  /** `rfind` finds the `c` after which no `c` follows. */
  lemma RFindAt(s: string, c: char, j: int)
    requires -1 <= j < |s| && (j >= 0 ==> s[j] == c) && c !in s[j + 1..]
    ensures RFind(s, c) == j
  {
    RFindLast(s, c);
  }

  /** The name of a path `dir/name`. */
  lemma NameIs(dir: string, name: string)
    requires '/' !in name
    ensures Name(dir + "/" + name) == name
  {
    var path := dir + "/" + name;
    assert path[|dir| + 1..] == name;
    RFindAt(path, '/', |dir|);
  }

  /** The suffix of `dir/stem.ext`, for an extension without a dot and a stem not empty. */
  lemma SuffixIs(dir: string, stem: string, ext: string)
    requires '/' !in stem + ext && stem != "" && |ext| >= 2 && ext[0] == '.' && '.' !in ext[1..]
    ensures Suffix(dir + "/" + stem + ext) == ext
  {
    assert dir + "/" + stem + ext == dir + "/" + (stem + ext);
    NameIs(dir, stem + ext);
    var n := stem + ext;
    assert n[|stem| + 1..] == ext[1..];
    RFindAt(n, '.', |stem|);
    assert n[|stem|..] == ext;
  }

  /** pathlib's rule on the cases that set it apart from "after the first dot" or "after
      the last dot": a double extension gives only its last part, ... */
  lemma SuffixOfDoubleExt()
    ensures Suffix("/m/a.tar.gz") == ".gz"
  {
    SuffixIs("/m", "a.tar", ".gz");
    assert "/m" + "/" + "a.tar" + ".gz" == "/m/a.tar.gz";
  }
  /** ... a dot-file has no suffix, ... */
  lemma SuffixOfDotFile()
    ensures Suffix("/m/.bashrc") == ""
  {
    NameIs("/m", ".bashrc");
    assert "/m" + "/" + ".bashrc" == "/m/.bashrc";
    RFindAt(".bashrc", '.', 0);
  }
  /** ... nor has a name ending in a dot, ... */
  lemma SuffixOfTrailingDot()
    ensures Suffix("/m/x.") == ""
  {
    NameIs("/m", "x.");
    assert "/m" + "/" + "x." == "/m/x.";
    RFindAt("x.", '.', 1);
  }
  /** ... nor a name without a dot. */
  lemma SuffixOfNoDot()
    ensures Suffix("/m/README") == ""
  {
    NameIs("/m", "README");
    assert "/m" + "/" + "README" == "/m/README";
    RFindAt("README", '.', -1);
  }

  /** The suffix a file is counted under: `file_path.suffix.lower()`. */
  function Ext(f: FileEntry): string {
    Lower(Suffix(f.path))
  }

  // ---------------------------------------------------------------- what is counted

  /** `lstat` succeeded on the file. */
  predicate Read(f: FileEntry) {
    f.size.Some?
  }

  /** `lstat` raised, and the file is skipped. */
  predicate Unread(f: FileEntry) {
    f.size.None?
  }

  /** A readable file counted under the non-empty suffix `e`. */
  function HasExt(e: string): FileEntry -> bool {
    f => Read(f) && e != "" && Ext(f) == e
  }

  /** A readable file whose non-empty suffix `ext_map` maps to the language `l`. */
  function InLang(l: string, extMap: map<string, string>): FileEntry -> bool {
    f => Read(f) && Ext(f) != "" && Ext(f) in extMap && extMap[Ext(f)] == l
  }

  /** How many files satisfy `p`. */
  function Count(fs: seq<FileEntry>, p: FileEntry -> bool): (n: nat)
    ensures n <= |fs|
  {
    if fs == [] then 0 else Count(fs[..|fs| - 1], p) + (if p(fs[|fs| - 1]) then 1 else 0)
  }

  /** The bytes of the readable files that satisfy `p`. */
  function Bytes(fs: seq<FileEntry>, p: FileEntry -> bool): nat {
    if fs == [] then 0
    else
      var f := fs[|fs| - 1];
      Bytes(fs[..|fs| - 1], p) + (if p(f) && Read(f) then f.size.value else 0)
  }

  /** The `(size, path)` tuples of the readable files, in the order visited. */
  function SeenPairs(fs: seq<FileEntry>): (r: seq<Pair>)
    ensures |r| <= |fs|
  {
    if fs == [] then []
    else
      var f := fs[|fs| - 1];
      SeenPairs(fs[..|fs| - 1]) + (if Read(f) then [(f.size.value, f.path)] else [])
  }

  lemma CountSnoc(fs: seq<FileEntry>, f: FileEntry, p: FileEntry -> bool)
    ensures Count(fs + [f], p) == Count(fs, p) + (if p(f) then 1 else 0)
    ensures Bytes(fs + [f], p) == Bytes(fs, p) + (if p(f) && Read(f) then f.size.value else 0)
    ensures SeenPairs(fs + [f]) == SeenPairs(fs) + (if Read(f) then [(f.size.value, f.path)] else [])
  {
    assert (fs + [f])[..|fs|] == fs;
  }

  /** A file is either skipped or read, so the readable files are the count less the
      skipped ones, and each of them has one tuple. */
  lemma {:induction false} ReadOrSkipped(fs: seq<FileEntry>)
    ensures Count(fs, Read) + Count(fs, Unread) == |fs|
    ensures |SeenPairs(fs)| == Count(fs, Read)
    decreases |fs|
  {
    if fs != [] {
      ReadOrSkipped(fs[..|fs| - 1]);
    }
  }

  /** Files under one suffix in `ext_map` are files of its language: a language counts
      at least as many files as any suffix that maps to it. */
  lemma {:induction false} SuffixWithinLanguage(fs: seq<FileEntry>, e: string, extMap: map<string, string>)
    requires e in extMap
    ensures Count(fs, HasExt(e)) <= Count(fs, InLang(extMap[e], extMap))
    decreases |fs|
  {
    if fs != [] {
      SuffixWithinLanguage(fs[..|fs| - 1], e, extMap);
    }
  }

  // ---------------------------------------------------------------- tallies

  /** `m` counts, per suffix, the readable files with that non-empty suffix. */
  ghost predicate ExtTallied(m: map<string, nat>, fs: seq<FileEntry>) {
    forall e :: Get(m, e) == Count(fs, HasExt(e)) && (e in m <==> Count(fs, HasExt(e)) > 0)
  }

  /** `m` counts, per language, the readable files whose suffix maps to it. */
  ghost predicate LangTallied(m: map<string, nat>, fs: seq<FileEntry>, extMap: map<string, string>) {
    forall l :: Get(m, l) == Count(fs, InLang(l, extMap)) && (l in m <==> Count(fs, InLang(l, extMap)) > 0)
  }

  /** `m` sums, per language, the bytes of those files; a language whose files are all
      empty is present with 0. */
  ghost predicate LangSized(m: map<string, nat>, fs: seq<FileEntry>, extMap: map<string, string>) {
    forall l :: Get(m, l) == Bytes(fs, InLang(l, extMap)) && (l in m <==> Count(fs, InLang(l, extMap)) > 0)
  }

  // ---------------------------------------------------------------- the largest files

  /** Python's order on strings: by code point, a proper prefix first. */
  predicate StrLess(a: string, b: string)
    decreases |a|
  {
    if a == [] then b != []
    else if b == [] then false
    else if a[0] != b[0] then a[0] < b[0]
    else StrLess(a[1..], b[1..])
  }

  lemma {:induction false} StrLessIrreflexive(a: string)
    ensures !StrLess(a, a)
    decreases |a|
  {
    if a != [] {
      StrLessIrreflexive(a[1..]);
    }
  }

  lemma {:induction false} StrLessTransitive(a: string, b: string, c: string)
    requires StrLess(a, b) && StrLess(b, c)
    ensures StrLess(a, c)
    decreases |a|
  {
    if a != [] && b != [] && c != [] && a[0] == b[0] && b[0] == c[0] {
      StrLessTransitive(a[1..], b[1..], c[1..]);
    }
  }

  lemma {:induction false} StrLessTotal(a: string, b: string)
    ensures a == b || StrLess(a, b) || StrLess(b, a)
    decreases |a|
  {
    if a != [] && b != [] && a[0] == b[0] {
      StrLessTotal(a[1..], b[1..]);
      if a[1..] == b[1..] {
        assert a == [a[0]] + a[1..] && b == [b[0]] + b[1..];
      }
    }
  }

  /** Python's order on `(size, path)` tuples. */
  predicate PairLess(x: Pair, y: Pair) {
    x.0 < y.0 || (x.0 == y.0 && StrLess(x.1, y.1))
  }

  /** "Not smaller than" is transitive, since the tuple order is a strict total order. */
  lemma NotLessTransitive(x: Pair, y: Pair, z: Pair)
    requires !PairLess(x, y) && !PairLess(y, z)
    ensures !PairLess(x, z)
  {
    if PairLess(x, z) {
      StrLessTotal(x.1, y.1);
      StrLessTotal(y.1, z.1);
      if x.0 == y.0 && y.0 == z.0 {
        if x.1 != y.1 && y.1 != z.1 {
          StrLessTransitive(x.1, z.1, y.1);
        }
      }
    }
  }

  /** `x < y` and `y < x` exclude each other. */
  lemma PairLessAsym(x: Pair, y: Pair)
    requires PairLess(x, y)
    ensures !PairLess(y, x)
  {
    if x.0 == y.0 && StrLess(y.1, x.1) {
      StrLessTransitive(x.1, y.1, x.1);
      StrLessIrreflexive(x.1);
    }
  }

  /** The tuple at `k` is no smaller than its parent at `(k - 1) / 2`. */
  predicate LinkOk(h: seq<Pair>, k: nat)
    requires 0 < k < |h|
  {
    !PairLess(h[k], h[(k - 1) / 2])
  }

  /** The order `heapq` keeps on its list: every parent link is in order. */
  predicate IsHeap(h: seq<Pair>) {
    forall k :: 0 < k < |h| ==> LinkOk(h, k)
  }

  /** The root of a heap is a least tuple. */
  lemma {:induction false} RootLeast(h: seq<Pair>, j: nat)
    requires IsHeap(h) && j < |h|
    ensures !PairLess(h[j], h[0])
    decreases j
  {
    if j == 0 {
      StrLessIrreflexive(h[0].1);
    } else {
      RootLeast(h, (j - 1) / 2);
      assert LinkOk(h, j);
      NotLessTransitive(h[j], h[(j - 1) / 2], h[0]);
    }
  }

  /** Writing `x` at `i` trades the element there for `x`. */
  lemma Overwrite(h: seq<Pair>, i: nat, x: Pair)
    requires i < |h|
    ensures multiset(h[i := x]) + multiset{h[i]} == multiset(h) + multiset{x}
  {
    assert h == h[..i] + [h[i]] + h[i + 1..];
    assert h[i := x] == h[..i] + [x] + h[i + 1..];
  }

  /** The heap order except that the tuple at `pos` may be smaller than its parent; the
      children of `pos` are no smaller than that parent. This is what `_siftdown` repairs. */
  predicate HeapBut(h: seq<Pair>, pos: nat) {
    && (forall k :: 0 < k < |h| && k != pos ==> LinkOk(h, k))
    && (0 < pos < |h| ==> forall k :: 0 < k < |h| && (k - 1) / 2 == pos ==> !PairLess(h[k], h[(pos - 1) / 2]))
  }

  /** `heapq._siftdown(heap, 0, pos)`: the tuple at `pos` moves towards the root, past
      every parent it is smaller than. */
  function SiftDown(h: seq<Pair>, pos: nat): (r: seq<Pair>)
    requires pos < |h|
    ensures |r| == |h|
    decreases pos
  {
    if pos > 0 && PairLess(h[pos], h[(pos - 1) / 2]) then
      var parent := (pos - 1) / 2;
      SiftDown(h[pos := h[parent]][parent := h[pos]], parent)
    else
      h
  }

  /** `_siftdown` only moves tuples. */
  lemma {:induction false} SiftDownKeeps(h: seq<Pair>, pos: nat)
    requires pos < |h|
    ensures multiset(SiftDown(h, pos)) == multiset(h)
    decreases pos
  {
    if pos > 0 && PairLess(h[pos], h[(pos - 1) / 2]) {
      var parent := (pos - 1) / 2;
      Overwrite(h, pos, h[parent]);
      Overwrite(h[pos := h[parent]], parent, h[pos]);
      SiftDownKeeps(h[pos := h[parent]][parent := h[pos]], parent);
    }
  }

  /** `_siftdown` turns the heap order but at `pos` into the heap order. */
  lemma {:induction false} SiftDownHeap(h: seq<Pair>, pos: nat)
    requires pos < |h| && HeapBut(h, pos)
    ensures IsHeap(SiftDown(h, pos))
    decreases pos
  {
    if pos > 0 && PairLess(h[pos], h[(pos - 1) / 2]) {
      var p := (pos - 1) / 2;
      var x, y := h[pos], h[p];
      var g := h[pos := y][p := x];
      PairLessAsym(x, y);
      forall k | 0 < k < |g| && k != p ensures LinkOk(g, k) {
        var q := (k - 1) / 2;
        if k == pos {
        } else if q == pos {
          assert g[k] == h[k];
        } else if q == p {
          assert LinkOk(h, k);
          NotLessTransitive(h[k], y, x);
        } else {
          assert LinkOk(h, k);
        }
      }
      if p > 0 {
        var gp := (p - 1) / 2;
        assert LinkOk(h, p);
        forall k | 0 < k < |g| && (k - 1) / 2 == p ensures !PairLess(g[k], g[gp]) {
          if k != pos {
            assert LinkOk(h, k);
            NotLessTransitive(h[k], h[p], h[gp]);
          }
        }
      }
      assert HeapBut(g, p);
      SiftDownHeap(g, p);
    }
  }

  /** The heap order on every parent link, except the root's own links while the hole is
      at the root. */
  predicate HoleHeap(h: seq<Pair>, pos: nat) {
    forall k :: 0 < k < |h| && (pos > 0 || k > 2) ==> LinkOk(h, k)
  }

  /** The child of `pos` that `_siftup` moves up: the right one when the left is not
      smaller. */
  function Smaller(h: seq<Pair>, pos: nat): (c: nat)
    requires 2 * pos + 1 < |h|
    ensures c == 2 * pos + 1 || c == 2 * pos + 2
    ensures c < |h| && (c - 1) / 2 == pos
  {
    var child := 2 * pos + 1;
    if child + 1 < |h| && !PairLess(h[child], h[child + 1]) then child + 1 else child
  }

  /** The first loop of `heapq._siftup(heap, pos)`: the smaller child moves up into the
      hole at `pos` until the hole is a leaf. The list and the leaf; the list holds the
      old one's tuples but the one at `pos`, and the tuple at the leaf twice. */
  function SiftHole(h: seq<Pair>, pos: nat): (r: (seq<Pair>, nat))
    requires pos < |h|
    ensures |r.0| == |h| && r.1 < |h| && |h| <= 2 * r.1 + 1
    decreases |h| - pos
  {
    if 2 * pos + 1 < |h| then
      var c := Smaller(h, pos);
      SiftHole(h[pos := h[c]], c)
    else
      (h, pos)
  }

  /** The hole walk loses the tuple at `pos` and doubles the one at the leaf. */
  lemma {:induction false} SiftHoleKeeps(h: seq<Pair>, pos: nat)
    requires pos < |h|
    ensures var r := SiftHole(h, pos); multiset(r.0) + multiset{h[pos]} == multiset(h) + multiset{r.0[r.1]}
    decreases |h| - pos
  {
    if 2 * pos + 1 < |h| {
      var c := Smaller(h, pos);
      Overwrite(h, pos, h[c]);
      SiftHoleKeeps(h[pos := h[c]], c);
    }
  }

  /** One step of the hole walk keeps the heap order, and from the root restores the
      root's links. */
  lemma HoleStep(h: seq<Pair>, pos: nat)
    requires 2 * pos + 1 < |h| && HoleHeap(h, pos)
    ensures HoleHeap(h[pos := h[Smaller(h, pos)]], Smaller(h, pos))
  {
    var c := Smaller(h, pos);
    var child := 2 * pos + 1;
    var g := h[pos := h[c]];
    StrLessIrreflexive(h[c].1);
    if c == child && child + 1 < |h| {
      PairLessAsym(h[child], h[child + 1]);
    }
    forall k | 0 < k < |g| ensures LinkOk(g, k) {
      var q := (k - 1) / 2;
      if k == pos {
        assert LinkOk(h, c) && LinkOk(h, pos);
        NotLessTransitive(h[c], h[pos], h[q]);
      } else if q == pos {
        assert g[q] == h[c] && g[k] == h[k];
      } else {
        assert LinkOk(h, k);
        assert g[q] == h[q] && g[k] == h[k];
      }
    }
  }

  /** The hole walk ends in a leaf with the heap order kept. */
  lemma {:induction false} SiftHoleHeap(h: seq<Pair>, pos: nat)
    requires pos < |h| && HoleHeap(h, pos)
    ensures HoleHeap(SiftHole(h, pos).0, SiftHole(h, pos).1)
    decreases |h| - pos
  {
    if 2 * pos + 1 < |h| {
      HoleStep(h, pos);
      SiftHoleHeap(h[pos := h[Smaller(h, pos)]], Smaller(h, pos));
    }
  }

  /** `heapq._siftup(heap, 0)`: the hole walk from the root, then the tuple that was at
      the root goes into the leaf and `_siftdown` moves it up. */
  function SiftUp(h: seq<Pair>): (r: seq<Pair>)
    requires |h| > 0
    ensures |r| == |h|
  {
    var w := SiftHole(h, 0);
    SiftDown(w.0[w.1 := h[0]], w.1)
  }

  /** `_siftup` only moves tuples. */
  lemma SiftUpKeeps(h: seq<Pair>)
    requires |h| > 0
    ensures multiset(SiftUp(h)) == multiset(h)
  {
    var w := SiftHole(h, 0);
    SiftHoleKeeps(h, 0);
    Overwrite(w.0, w.1, h[0]);
    Cancel(multiset(w.0[w.1 := h[0]]), multiset(h), w.0[w.1]);
    SiftDownKeeps(w.0[w.1 := h[0]], w.1);
  }

  /** Adding the same tuple to two multisets keeps them apart. */
  lemma Cancel(x: multiset<Pair>, y: multiset<Pair>, a: Pair)
    requires x + multiset{a} == y + multiset{a}
    ensures x == y
  {
    forall z ensures x[z] == y[z] {
      assert (x + multiset{a})[z] == (y + multiset{a})[z];
    }
  }

  /** `heapq.heappush`: append, then `_siftdown` from the new last position. */
  function HeapPush(h: seq<Pair>, e: Pair): (r: seq<Pair>)
    ensures |r| == |h| + 1 && multiset(r) == multiset(h) + multiset{e}
  {
    SiftDownKeeps(h + [e], |h|);
    SiftDown(h + [e], |h|)
  }

  /** A push keeps a heap a heap. */
  lemma PushHeap(h: seq<Pair>, e: Pair)
    requires IsHeap(h)
    ensures IsHeap(HeapPush(h, e))
  {
    forall k | 0 < k < |h| ensures LinkOk(h + [e], k) {
      assert LinkOk(h, k);
    }
    assert HeapBut(h + [e], |h|);
    SiftDownHeap(h + [e], |h|);
  }

  /** `heapq.heappushpop`: when the root is smaller than `e`, the root is popped and `e`
      takes its place and sifts up; otherwise `e` itself comes back and the list is
      unchanged. */
  function HeapPushPop(h: seq<Pair>, e: Pair): (r: (seq<Pair>, Pair))
    ensures |r.0| == |h|
    ensures multiset(r.0) + multiset{r.1} == multiset(h) + multiset{e}
  {
    if h != [] && PairLess(h[0], e) then
      Overwrite(h, 0, e);
      SiftUpKeeps(h[0 := e]);
      (SiftUp(h[0 := e]), h[0])
    else
      (h, e)
  }

  /** A push-and-pop keeps a heap a heap and pops a least tuple of the heap and `e`. */
  lemma PushPopHeap(h: seq<Pair>, e: Pair)
    requires IsHeap(h)
    ensures var r := HeapPushPop(h, e);
      IsHeap(r.0) && forall j :: 0 <= j < |r.0| ==> !PairLess(r.0[j], r.1)
  {
    if h != [] && PairLess(h[0], e) {
      var g := h[0 := e];
      forall k | 2 < k < |g| ensures LinkOk(g, k) {
        assert LinkOk(h, k);
      }
      SiftHoleHeap(g, 0);
      var w := SiftHole(g, 0);
      var b := w.0[w.1 := e];
      forall k | 0 < k < |b| && k != w.1 ensures LinkOk(b, k) {
        assert LinkOk(w.0, k);
      }
      assert HeapBut(b, w.1);
      SiftDownHeap(b, w.1);
      var r := SiftUp(g);
      SiftUpKeeps(g);
      forall j | 0 <= j < |r| ensures !PairLess(r[j], h[0]) {
        assert r[j] in multiset(g);
        var i :| 0 <= i < |g| && g[i] == r[j];
        if i == 0 {
          PairLessAsym(h[0], e);
        } else {
          RootLeast(h, i);
        }
      }
    } else {
      forall j | 0 <= j < |h| ensures !PairLess(h[j], e) {
        RootLeast(h, j);
        NotLessTransitive(h[j], h[0], e);
      }
    }
  }

  /** `kept` is what a heap of the ten largest tuples of `seen` holds: tuples of `seen`,
      as many as `seen` has up to ten, none smaller than a tuple left out. */
  predicate Top(kept: seq<Pair>, seen: seq<Pair>) {
    && multiset(kept) <= multiset(seen)
    && |kept| == Min(10, |seen|)
    && forall x, y :: x in multiset(kept) && y in multiset(seen) - multiset(kept) ==> !PairLess(x, y)
  }

  /** One file of the heap loop: push while fewer than ten, push-and-pop after. */
  function Keep(h: seq<Pair>, e: Pair): seq<Pair> {
    if |h| < 10 then HeapPush(h, e) else HeapPushPop(h, e).0
  }

  /** What is left out after a push: what was left out before. */
  lemma PushCounts(s: multiset<Pair>, k: multiset<Pair>, e: Pair)
    requires k <= s
    ensures (s + multiset{e}) - (k + multiset{e}) == s - k
  {
    assert forall z :: ((s + multiset{e}) - (k + multiset{e}))[z] == (s - k)[z];
  }

  /** What is left out after a push and a pop of `d`: what was left out before, and `d`. */
  lemma PushPopCounts(s: multiset<Pair>, k: multiset<Pair>, r: multiset<Pair>, e: Pair, d: Pair)
    requires k <= s && r + multiset{d} == k + multiset{e}
    ensures (s + multiset{e}) - r == (s - k) + multiset{d}
    ensures r <= s + multiset{e}
    ensures forall x :: x in r ==> x in k || x == e
    ensures d != e ==> d in k
    ensures e in r && e !in k ==> d != e
  {
    forall z ensures ((s + multiset{e}) - r)[z] == ((s - k) + multiset{d})[z] && r[z] <= (s + multiset{e})[z] {
      assert (r + multiset{d})[z] == (k + multiset{e})[z];
      assert k[z] <= s[z];
    }
    assert (s + multiset{e}) - r == (s - k) + multiset{d};
    if d != e {
      assert (r + multiset{d})[d] == (k + multiset{e})[d];
    }
    if e in r && e !in k {
      assert (r + multiset{d})[e] == (k + multiset{e})[e];
    }
  }

  /** The heap loop keeps the ten largest tuples seen so far. */
  lemma KeepTop(kept: seq<Pair>, seen: seq<Pair>, e: Pair)
    requires Top(kept, seen) && IsHeap(kept)
    ensures Top(Keep(kept, e), seen + [e]) && IsHeap(Keep(kept, e))
  {
    assert multiset(seen + [e]) == multiset(seen) + multiset{e};
    if |kept| < 10 {
      PushTop(kept, seen, e);
      PushHeap(kept, e);
    } else {
      PushPopTop(kept, seen, e);
      PushPopHeap(kept, e);
    }
  }

  /** Below ten, the heap holds every tuple seen, and one more push keeps that. */
  lemma PushTop(kept: seq<Pair>, seen: seq<Pair>, e: Pair)
    requires Top(kept, seen) && |kept| < 10
    ensures Top(HeapPush(kept, e), seen + [e])
  {
    var s := multiset(seen);
    var k := multiset(kept);
    assert multiset(seen + [e]) == s + multiset{e};
    var kept' := HeapPush(kept, e);
    PushCounts(s, k, e);
    assert |seen| < 10;
    assert s == k + (s - k);
    assert s - k == multiset{};
  }

  /** At ten, a push and a pop of a least tuple keeps the ten largest. */
  lemma PushPopTop(kept: seq<Pair>, seen: seq<Pair>, e: Pair)
    requires Top(kept, seen) && IsHeap(kept) && |kept| >= 10
    ensures Top(HeapPushPop(kept, e).0, seen + [e])
  {
    var s := multiset(seen);
    var k := multiset(kept);
    assert multiset(seen + [e]) == s + multiset{e};
    var (r, d) := HeapPushPop(kept, e);
    PushPopHeap(kept, e);
    PushPopCounts(s, k, multiset(r), e, d);
    forall x, y | x in multiset(r) && y in (s - k) + multiset{d} ensures !PairLess(x, y) {
      assert x in r;
      if y in s - k && x !in k {
        NotLessTransitive(x, d, y);
      }
    }
  }

  /** The heap after the tuples `ps` were offered, one at a time, to an empty one. */
  function Heaped(ps: seq<Pair>): seq<Pair> {
    if ps == [] then [] else Keep(Heaped(ps[..|ps| - 1]), ps[|ps| - 1])
  }

  /** The heap loop keeps the heap order and the ten largest tuples seen. */
  lemma {:induction false} HeapedTop(ps: seq<Pair>)
    ensures IsHeap(Heaped(ps)) && Top(Heaped(ps), ps)
    decreases |ps|
  {
    if ps != [] {
      var init, e := ps[..|ps| - 1], ps[|ps| - 1];
      assert init + [e] == ps;
      var h := Heaped(init);
      assert Heaped(ps) == Keep(h, e);
      HeapedTop(init);
      KeepTop(h, init, e);
    }
  }

  /** The final order: largest first (`sort(key=size, reverse=True)`, which keeps the
      order of equal sizes). */
  function SizeDesc(p: Pair): Ext {
    Fin(-(p.0 as int))
  }

  /** When at most ten files were read, the heap holds all of them. */
  lemma TopOfFew(kept: seq<Pair>, seen: seq<Pair>)
    requires Top(kept, seen) && |seen| <= 10
    ensures multiset(kept) == multiset(seen)
  {
    var rest := multiset(seen) - multiset(kept);
    assert multiset(seen) == multiset(kept) + rest;
    assert |rest| == 0;
  }

  /** A file left out of the heap is no larger than any file kept. */
  lemma TopBySize(kept: seq<Pair>, seen: seq<Pair>, x: Pair, y: Pair)
    requires Top(kept, seen)
    requires x in kept && y in multiset(seen) - multiset(kept)
    ensures y.0 <= x.0
  {
    assert x in multiset(kept);
  }

  // ---------------------------------------------------------------- the scan

  /** The suffix counter after file `f`. */
  function AddExt(m: map<string, nat>, f: FileEntry): map<string, nat> {
    if Read(f) && Ext(f) != "" then m[Ext(f) := Get(m, Ext(f)) + 1] else m
  }

  /** A language counter after file `f`, adding `w` for it. */
  function AddLang(m: map<string, nat>, f: FileEntry, w: nat, extMap: map<string, string>): map<string, nat> {
    if Read(f) && Ext(f) != "" && Ext(f) in extMap then m[extMap[Ext(f)] := Get(m, extMap[Ext(f)]) + w] else m
  }

  lemma ExtStep(m: map<string, nat>, fs: seq<FileEntry>, f: FileEntry)
    requires ExtTallied(m, fs)
    ensures ExtTallied(AddExt(m, f), fs + [f])
  {
    forall e ensures Get(AddExt(m, f), e) == Count(fs + [f], HasExt(e)) && (e in AddExt(m, f) <==> Count(fs + [f], HasExt(e)) > 0) {
      CountSnoc(fs, f, HasExt(e));
      assert HasExt(e)(f) == (Read(f) && e != "" && Ext(f) == e);
    }
  }

  lemma LangStep(m: map<string, nat>, sizes: map<string, nat>, fs: seq<FileEntry>, f: FileEntry, extMap: map<string, string>)
    requires LangTallied(m, fs, extMap) && LangSized(sizes, fs, extMap)
    ensures LangTallied(AddLang(m, f, 1, extMap), fs + [f], extMap)
    ensures LangSized(AddLang(sizes, f, Weight(f, Read), extMap), fs + [f], extMap)
  {
    forall l ensures Count(fs + [f], InLang(l, extMap)) == Count(fs, InLang(l, extMap)) + (if Read(f) && Ext(f) != "" && Ext(f) in extMap && extMap[Ext(f)] == l then 1 else 0)
      && Bytes(fs + [f], InLang(l, extMap)) == Bytes(fs, InLang(l, extMap)) + (if Read(f) && Ext(f) != "" && Ext(f) in extMap && extMap[Ext(f)] == l then f.size.value else 0)
    {
      CountSnoc(fs, f, InLang(l, extMap));
    }
  }

  /** The bytes of `[f]` that satisfy `p`. */
  function Weight(f: FileEntry, p: FileEntry -> bool): nat {
    if p(f) && Read(f) then f.size.value else 0
  }

  /** The stats after the files `fs`: every counter as the files define it, and the heap
      holding the ten largest. */
  ghost predicate Scanned(st: Stats, fs: seq<FileEntry>, extMap: map<string, string>) {
    && st.fileCount == |fs|
    && st.skipped == Count(fs, Unread)
    && st.sizeBytes == Bytes(fs, Read)
    && ExtTallied(st.extensions, fs)
    && LangTallied(st.languages, fs, extMap)
    && LangSized(st.languagesSize, fs, extMap)
    && Top(st.largest, SeenPairs(fs))
  }

  /** The stats after one more file. */
  function Tally(st: Stats, f: FileEntry, extMap: map<string, string>): Stats {
    match f.size
    case None => st.(fileCount := st.fileCount + 1, skipped := st.skipped + 1)
    case Some(n) =>
      st.(fileCount := st.fileCount + 1, sizeBytes := st.sizeBytes + n, largest := Keep(st.largest, (n, f.path)),
          extensions := AddExt(st.extensions, f), languages := AddLang(st.languages, f, 1, extMap),
          languagesSize := AddLang(st.languagesSize, f, n, extMap))
  }

  /** One more file keeps the stats true to the files. */
  lemma TallyStep(st: Stats, fs: seq<FileEntry>, f: FileEntry, extMap: map<string, string>)
    requires Scanned(st, fs, extMap) && st.largest == Heaped(SeenPairs(fs))
    ensures Scanned(Tally(st, f, extMap), fs + [f], extMap)
    ensures Tally(st, f, extMap).largest == Heaped(SeenPairs(fs + [f]))
  {
    CountSnoc(fs, f, Unread);
    CountSnoc(fs, f, Read);
    if f.size.Some? {
      ReadStep(st, fs, f, extMap);
    } else {
      assert SeenPairs(fs + [f]) == SeenPairs(fs);
      ExtStep(st.extensions, fs, f);
      LangStep(st.languages, st.languagesSize, fs, f, extMap);
    }
  }

  /** The tallies and the heap after a file that `lstat` read. */
  lemma ReadStep(st: Stats, fs: seq<FileEntry>, f: FileEntry, extMap: map<string, string>)
    requires Scanned(st, fs, extMap) && st.largest == Heaped(SeenPairs(fs)) && f.size.Some?
    ensures var r := Tally(st, f, extMap);
      && ExtTallied(r.extensions, fs + [f]) && LangTallied(r.languages, fs + [f], extMap)
      && LangSized(r.languagesSize, fs + [f], extMap)
      && r.largest == Heaped(SeenPairs(fs + [f])) && Top(r.largest, SeenPairs(fs + [f]))
  {
    ExtStep(st.extensions, fs, f);
    LangStep(st.languages, st.languagesSize, fs, f, extMap);
    var ps := SeenPairs(fs);
    assert (ps + [(f.size.value, f.path)])[..|ps|] == ps;
    HeapedTop(SeenPairs(fs + [f]));
  }

  /** The body of the walk loop for one file: count it; on a successful `lstat` add its
      bytes, offer it to the heap, and count its suffix and language. */
  method CountFile(st: Stats, f: FileEntry, extMap: map<string, string>) returns (r: Stats)
    ensures r == Tally(st, f, extMap)
  {
    var fileCount := st.fileCount + 1;
    match f.size {
      case None =>
        r := st.(fileCount := fileCount, skipped := st.skipped + 1);
      case Some(fileSize) =>
        var sizeBytes := st.sizeBytes + fileSize;
        var largest := st.largest;
        if |largest| < 10 {
          largest := HeapPush(largest, (fileSize, f.path));
        } else {
          largest := HeapPushPop(largest, (fileSize, f.path)).0;
        }
        var extensions, languages, languagesSize := CountSuffix(st.extensions, st.languages, st.languagesSize, f, fileSize, extMap);
        r := Stats(fileCount, st.skipped, extensions, languages, languagesSize, sizeBytes, largest);
    }
  }

  /** The suffix part of the walk loop for a file `f` of `fileSize` bytes that `lstat`
      read: a non-empty suffix is counted, and its language when `ext_map` knows it. */
  method CountSuffix(extensions: map<string, nat>, languages: map<string, nat>, languagesSize: map<string, nat>,
                     f: FileEntry, fileSize: nat, extMap: map<string, string>)
    returns (extensions': map<string, nat>, languages': map<string, nat>, languagesSize': map<string, nat>)
    requires f.size == Some(fileSize)
    ensures extensions' == AddExt(extensions, f)
    ensures languages' == AddLang(languages, f, 1, extMap)
    ensures languagesSize' == AddLang(languagesSize, f, fileSize, extMap)
  {
    extensions', languages', languagesSize' := extensions, languages, languagesSize;
    var suffix := Lower(Suffix(f.path));
    if suffix != "" {
      extensions' := extensions'[suffix := Get(extensions', suffix) + 1];
      if suffix in extMap {
        var lang := extMap[suffix];
        languages' := languages'[lang := Get(languages', lang) + 1];
        languagesSize' := languagesSize'[lang := Get(languagesSize', lang) + fileSize];
      }
    }
  }

  /** Sorting the heap keeps its tuples. */
  lemma TopSorted(kept: seq<Pair>, seen: seq<Pair>)
    requires Top(kept, seen)
    ensures Top(SortBy(kept, SizeDesc), seen) && SortedBy(SortBy(kept, SizeDesc), SizeDesc)
  {
    SortBySorted(kept, SizeDesc);
  }

  /** `analyze_directory` over the files the walk yields, in order: the counters describe
      every file, and the largest files are the ten largest readable ones, largest first. */
  method AnalyzeFiles(files: seq<FileEntry>) returns (st: Stats)
    ensures Scanned(st, files, EXT_MAP)
    ensures SortedBy(st.largest, SizeDesc)
    ensures st.largest == SortBy(Heaped(SeenPairs(files)), SizeDesc)
  {
    st := ScanFiles(files, EXT_MAP);
  }

  /** The walk of `analyze_directory` with the suffix map `extMap`. */
  method ScanFiles(files: seq<FileEntry>, extMap: map<string, string>) returns (st: Stats)
    ensures Scanned(st, files, extMap)
    ensures SortedBy(st.largest, SizeDesc)
    ensures st.largest == SortBy(Heaped(SeenPairs(files)), SizeDesc)
  {
    st := Stats(0, 0, map[], map[], map[], 0, []);
    for i := 0 to |files|
      invariant Scanned(st, files[..i], extMap)
      invariant st.largest == Heaped(SeenPairs(files[..i]))
    {
      st := ScanOne(st, files, i, extMap);
    }
    assert files[..|files|] == files;
    TopSorted(st.largest, SeenPairs(files));
    st := st.(largest := SortBy(st.largest, SizeDesc));
  }

  /** One file of the walk. */
  method ScanOne(st: Stats, files: seq<FileEntry>, i: nat, extMap: map<string, string>) returns (r: Stats)
    requires i < |files| && Scanned(st, files[..i], extMap) && st.largest == Heaped(SeenPairs(files[..i]))
    ensures r == Tally(st, files[i], extMap) && Scanned(r, files[..i + 1], extMap)
    ensures r.largest == Heaped(SeenPairs(files[..i + 1]))
  {
    assert files[..i + 1] == files[..i] + [files[i]];
    TallyStep(st, files[..i], files[i], extMap);
    r := CountFile(st, files[i], extMap);
  }

  /** Two readable files of five bytes met in the order `/m/b`, `/m/a`: the push sifts
      `/m/a` to the root, as the smaller tuple, and the stable sort by size keeps it first. */
  lemma EqualSizesInHeapOrder()
    ensures SortBy(Heaped(SeenPairs([FileEntry("/m/b", Some(5)), FileEntry("/m/a", Some(5))])), SizeDesc)
      == [(5, "/m/a"), (5, "/m/b")]
  {
    var b, a := FileEntry("/m/b", Some(5)), FileEntry("/m/a", Some(5));
    var pb, pa := (5, "/m/b"), (5, "/m/a");
    CountSnoc([], b, Read);
    assert [] + [b] == [b];
    CountSnoc([b], a, Read);
    assert [b] + [a] == [b, a];
    assert SeenPairs([b, a]) == [pb, pa];
    assert [pb, pa][..1] == [pb];
    assert Heaped([pb]) == HeapPush([], pb) == [pb];
    assert StrLess("/m/a", "/m/b");
    assert Heaped([pb, pa]) == HeapPush([pb], pa) == [pa, pb];
    assert SortBy([pb], SizeDesc) == [pb];
    assert [pa, pb][1..] == [pb];
  }

  /** The number of files of `[a]` that satisfy `p`. */
  function One(f: FileEntry, p: FileEntry -> bool): nat {
    if p(f) then 1 else 0
  }

  /** Counting over four files, one at a time. */
  lemma CountFour(a: FileEntry, b: FileEntry, c: FileEntry, d: FileEntry, p: FileEntry -> bool)
    ensures Count([a, b, c, d], p) == One(a, p) + One(b, p) + One(c, p) + One(d, p)
  {
    var s1, s2, s3 := [a], [a, b], [a, b, c];
    CountSnoc([], a, p);
    assert [] + [a] == s1;
    CountSnoc(s1, b, p);
    assert s1 + [b] == s2;
    CountSnoc(s2, c, p);
    assert s2 + [c] == s3;
    CountSnoc(s3, d, p);
    assert s3 + [d] == [a, b, c, d];
  }

  /** Summing bytes over four files, one at a time. */
  lemma BytesFour(a: FileEntry, b: FileEntry, c: FileEntry, d: FileEntry, p: FileEntry -> bool)
    ensures Bytes([a, b, c, d], p) == Weight(a, p) + Weight(b, p) + Weight(c, p) + Weight(d, p)
  {
    var s1, s2, s3 := [a], [a, b], [a, b, c];
    CountSnoc([], a, p);
    assert [] + [a] == s1;
    CountSnoc(s1, b, p);
    assert s1 + [b] == s2;
    CountSnoc(s2, c, p);
    assert s2 + [c] == s3;
    CountSnoc(s3, d, p);
    assert s3 + [d] == [a, b, c, d];
  }

  /** The directory of the integration test: four empty files, `test.py`, `test.js`,
      `image.jpg` and `README.md`, in a directory `dir`. */
  function TestFile(dir: string, stem: string, ext: string): FileEntry {
    FileEntry(dir + "/" + stem + ext, Some(0))
  }
  function PY(dir: string): FileEntry { TestFile(dir, "test", ".py") }
  function JS(dir: string): FileEntry { TestFile(dir, "test", ".js") }
  function JPG(dir: string): FileEntry { TestFile(dir, "image", ".jpg") }
  function MD(dir: string): FileEntry { TestFile(dir, "README", ".md") }

  /** A file of the test directory holds its extension as its suffix. */
  lemma TestFileExt(dir: string, stem: string, ext: string)
    requires '/' !in stem + ext && stem != "" && |ext| >= 2 && ext[0] == '.' && '.' !in ext[1..]
    requires forall i :: 0 <= i < |ext| ==> !('A' <= ext[i] <= 'Z')
    ensures Ext(TestFile(dir, stem, ext)) == ext
  {
    SuffixIs(dir, stem, ext);
    assert Lower(ext) == ext;
  }

  /** The suffixes of the four files. */
  lemma TestExts(dir: string)
    ensures Ext(PY(dir)) == ".py" && Ext(JS(dir)) == ".js" && Ext(JPG(dir)) == ".jpg" && Ext(MD(dir)) == ".md"
  {
    PyExt(dir);
    JsExt(dir);
    JpgExt(dir);
    MdExt(dir);
  }

  lemma PyExt(dir: string) ensures Ext(PY(dir)) == ".py" { TestFileExt(dir, "test", ".py"); }
  lemma JsExt(dir: string) ensures Ext(JS(dir)) == ".js" { TestFileExt(dir, "test", ".js"); }
  lemma JpgExt(dir: string) ensures Ext(JPG(dir)) == ".jpg" { TestFileExt(dir, "image", ".jpg"); }
  lemma MdExt(dir: string) ensures Ext(MD(dir)) == ".md" { TestFileExt(dir, "README", ".md"); }

  /** The languages `ext_map` gives the four suffixes of the test. */
  lemma TestSuffixes()
    ensures ".py" in EXT_MAP && EXT_MAP[".py"] == "Python"
    ensures ".js" in EXT_MAP && EXT_MAP[".js"] == "JavaScript"
    ensures ".jpg" in EXT_MAP && EXT_MAP[".jpg"] == "Image"
    ensures ".md" in EXT_MAP && EXT_MAP[".md"] == "Markdown"
  {
  }

  /** Four empty readable files with the suffixes of the integration test's files. */
  predicate TestTree(a: FileEntry, b: FileEntry, c: FileEntry, d: FileEntry) {
    && a.size == Some(0) && b.size == Some(0) && c.size == Some(0) && d.size == Some(0)
    && Ext(a) == ".py" && Ext(b) == ".js" && Ext(c) == ".jpg" && Ext(d) == ".md"
  }

  /** The four files: none skipped, one `.py`. */
  lemma TestFileCounts(a: FileEntry, b: FileEntry, c: FileEntry, d: FileEntry)
    requires TestTree(a, b, c, d)
    ensures Count([a, b, c, d], Unread) == 0
    ensures Count([a, b, c, d], HasExt(".py")) == 1
  {
    assert One(a, Unread) == 0 && One(b, Unread) == 0 && One(c, Unread) == 0 && One(d, Unread) == 0;
    assert One(a, HasExt(".py")) == 1 && One(b, HasExt(".py")) == 0 && One(c, HasExt(".py")) == 0 && One(d, HasExt(".py")) == 0;
    CountFour(a, b, c, d, Unread);
    CountFour(a, b, c, d, HasExt(".py"));
  }

  /** The suffixes of the four files as `ext_map` classifies them. */
  predicate TestMap(extMap: map<string, string>) {
    && ".py" in extMap && extMap[".py"] == "Python"
    && ".js" in extMap && extMap[".js"] == "JavaScript"
    && ".jpg" in extMap && extMap[".jpg"] == "Image"
    && ".md" in extMap && extMap[".md"] == "Markdown"
  }

  /** The four files: one each of Python, JavaScript and Image, and no Python bytes. */
  lemma TestLanguageCounts(a: FileEntry, b: FileEntry, c: FileEntry, d: FileEntry, extMap: map<string, string>)
    requires TestTree(a, b, c, d) && TestMap(extMap)
    ensures Count([a, b, c, d], InLang("Python", extMap)) == 1
    ensures Count([a, b, c, d], InLang("JavaScript", extMap)) == 1
    ensures Count([a, b, c, d], InLang("Image", extMap)) == 1
    ensures Bytes([a, b, c, d], InLang("Python", extMap)) == 0
  {
    assert One(a, InLang("Python", extMap)) == 1 && One(b, InLang("Python", extMap)) == 0 && One(c, InLang("Python", extMap)) == 0 && One(d, InLang("Python", extMap)) == 0;
    assert One(a, InLang("JavaScript", extMap)) == 0 && One(b, InLang("JavaScript", extMap)) == 1 && One(c, InLang("JavaScript", extMap)) == 0 && One(d, InLang("JavaScript", extMap)) == 0;
    assert One(a, InLang("Image", extMap)) == 0 && One(b, InLang("Image", extMap)) == 0 && One(c, InLang("Image", extMap)) == 1 && One(d, InLang("Image", extMap)) == 0;
    CountFour(a, b, c, d, InLang("Python", extMap));
    CountFour(a, b, c, d, InLang("JavaScript", extMap));
    CountFour(a, b, c, d, InLang("Image", extMap));
    BytesFour(a, b, c, d, InLang("Python", extMap));
  }

  /** The counters of a scan of four such files under a map that classifies their
      suffixes as `ext_map` does. */
  lemma ScansTestFiles(a: FileEntry, b: FileEntry, c: FileEntry, d: FileEntry, st: Stats, extMap: map<string, string>)
    requires TestTree(a, b, c, d) && TestMap(extMap)
    requires st.fileCount == |[a, b, c, d]| && st.skipped == Count([a, b, c, d], Unread)
    requires ExtTallied(st.extensions, [a, b, c, d])
    requires LangTallied(st.languages, [a, b, c, d], extMap) && LangSized(st.languagesSize, [a, b, c, d], extMap)
    ensures st.fileCount == 4 && st.skipped == 0
    ensures Get(st.extensions, ".py") == 1
    ensures Get(st.languages, "Python") == 1 && Get(st.languages, "JavaScript") == 1 && Get(st.languages, "Image") == 1
    ensures "Python" in st.languagesSize && Get(st.languagesSize, "Python") == 0
  {
    TestFileCounts(a, b, c, d);
    TestLanguageCounts(a, b, c, d, extMap);
    var fs := [a, b, c, d];
    assert Get(st.extensions, ".py") == Count(fs, HasExt(".py"));
    assert Get(st.languages, "Python") == Count(fs, InLang("Python", extMap));
    assert Get(st.languages, "JavaScript") == Count(fs, InLang("JavaScript", extMap));
    assert Get(st.languages, "Image") == Count(fs, InLang("Image", extMap));
    assert Get(st.languagesSize, "Python") == Bytes(fs, InLang("Python", extMap));
    assert "Python" in st.languagesSize <==> Count(fs, InLang("Python", extMap)) > 0;
  }

  /** Scanning the four empty files of the integration test counts four files, skips
      none, counts one `.py`, one file each of Python, JavaScript and Image, and no Python
      bytes. */
  lemma ScansTestDirectory(dir: string, st: Stats)
    requires st.fileCount == |[PY(dir), JS(dir), JPG(dir), MD(dir)]| && st.skipped == Count([PY(dir), JS(dir), JPG(dir), MD(dir)], Unread)
    requires ExtTallied(st.extensions, [PY(dir), JS(dir), JPG(dir), MD(dir)])
    requires LangTallied(st.languages, [PY(dir), JS(dir), JPG(dir), MD(dir)], EXT_MAP) && LangSized(st.languagesSize, [PY(dir), JS(dir), JPG(dir), MD(dir)], EXT_MAP)
    ensures st.fileCount == 4 && st.skipped == 0
    ensures Get(st.extensions, ".py") == 1
    ensures Get(st.languages, "Python") == 1 && Get(st.languages, "JavaScript") == 1 && Get(st.languages, "Image") == 1
    ensures "Python" in st.languagesSize && Get(st.languagesSize, "Python") == 0
  {
    TestSuffixes();
    TestExts(dir);
    ScansTestFiles(PY(dir), JS(dir), JPG(dir), MD(dir), st, EXT_MAP);
  }
}
