/** app/split_aliases.py: the module header and the content clean-up used to split a
    `.aliases` file into one file per section, and the order in which `main` writes them.
    Reading the JSON metadata and the original file, writing the files and `chmod` are
    left out: the metadata and the lines arrive as values, the files leave as values. */
module SplitAliases {
  import opened PyNum
  import opened PySort
  import opened PyStr
  import opened PyDict

  // ---------------------------------------------------------------- module name

  /** The priority prefixes `create_module_header` removes, in the order it removes them. */
  const PREFIXES: seq<string> := ["00-", "10-", "20-", "30-", "40-", "50-", "55-", "60-", "65-",
                                  "70-", "75-", "80-", "85-", "90-", "95-"]

  /** Two digits and a dash. */
  predicate PrefixLike(p: string) {
    |p| == 3 && IsDigit(p[0]) && IsDigit(p[1]) && p[2] == '-'
  }

  predicate AllPrefixLike(ps: seq<string>) {
    forall i :: 0 <= i < |ps| ==> PrefixLike(ps[i])
  }

  lemma PrefixesShape()
    ensures AllPrefixLike(PREFIXES)
  {
  }

  /** The chain of `.replace(p, '')` calls for the prefixes `ps[i..]`, in order (removing
      the empty text, as Python's `s.replace('', '')` does, changes nothing). */
  function RemoveFrom(s: string, ps: seq<string>, i: nat): string
    decreases |ps| - i
  {
    if i >= |ps| then s
    else if ps[i] == "" then RemoveFrom(s, ps, i + 1)
    else RemoveFrom(Replace(s, ps[i], ""), ps, i + 1)
  }

  /** The module name of the section `name`. */
  function ModuleName(name: string): string {
    RemoveFrom(name, PREFIXES, 0)
  }

  /** A name without digits holds none of the prefixes. */
  lemma {:induction false} RemoveFromDigitFree(s: string, ps: seq<string>, i: nat)
    requires DigitFree(s) && AllPrefixLike(ps)
    ensures RemoveFrom(s, ps, i) == s
    decreases |ps| - i
  {
    if i < |ps| {
      assert PrefixLike(ps[i]);
      ReplaceSkips(s, "", ps[i], "");
      assert s + "" == s;
      RemoveFromDigitFree(s, ps, i + 1);
    }
  }

  /** A prefix followed by a digit-free text holds no other prefix. */
  lemma ReplaceOther(p: string, b: string, q: string)
    requires PrefixLike(p) && PrefixLike(q) && p != q && DigitFree(b)
    ensures Replace(p + b, q, "") == p + b
  {
    var t := p + b;
    assert t[..3] == p;
    var u := t[1..];
    assert u == [p[1]] + ([p[2]] + b);
    if |u| >= 3 {
      assert u[..3] != q by {
        assert u[..3][1] == '-';
      }
    }
    var v := u[1..];
    assert v == [p[2]] + b;
    assert DigitFree(v);
    ReplaceSkips(v, "", q, "");
    assert v + "" == v;
    assert Replace(u, q, "") == [p[1]] + v;
    assert Replace(t, q, "") == [p[0]] + Replace(u, q, "");
    assert p == [p[0]] + [p[1]] + [p[2]];
  }

  /** Removing a prefix from a prefix followed by a digit-free text leaves that text. */
  lemma ReplaceSelf(p: string, b: string)
    requires PrefixLike(p) && DigitFree(b)
    ensures Replace(p + b, p, "") == b
  {
    var t := p + b;
    assert t[..3] == p && t[3..] == b;
    ReplaceSkips(b, "", p, "");
    assert b + "" == b;
  }

  /** One step of the chain on a digit-free text with one prefix `p` inside it: the
      prefix `q` goes when it is `p`, and nothing changes otherwise. */
  lemma ReplaceInside(a: string, p: string, b: string, q: string)
    requires DigitFree(a) && DigitFree(b) && PrefixLike(p) && PrefixLike(q)
    ensures Replace(a + p + b, q, "") == if q == p then a + b else a + p + b
  {
    ReplaceSkips(a, p + b, q, "");
    assert a + p + b == a + (p + b);
    if q == p {
      ReplaceSelf(p, b);
    } else {
      ReplaceOther(p, b, q);
    }
  }

  /** Removing the prefixes `ps[i..]` from a digit-free text with one prefix `p` inside
      it: the prefix goes, wherever it stands, when it is one of them. */
  lemma {:induction false} RemoveFromInside(a: string, p: string, b: string, ps: seq<string>, i: nat)
    requires DigitFree(a) && DigitFree(b) && PrefixLike(p) && AllPrefixLike(ps) && i <= |ps|
    ensures RemoveFrom(a + p + b, ps, i) == if p in ps[i..] then a + b else a + p + b
    decreases |ps| - i
  {
    if i < |ps| {
      var q := ps[i];
      assert PrefixLike(q);
      ReplaceInside(a, p, b, q);
      assert ps[i..] == [q] + ps[i + 1..];
      if q == p {
        assert DigitFree(a + b);
        RemoveFromDigitFree(a + b, ps, i + 1);
      } else {
        RemoveFromInside(a, p, b, ps, i + 1);
      }
    }
  }

  /** `create_module_header` removes a priority prefix from anywhere in a name, not only
      from its front: `x-10-y` becomes `x-y`, `00-core` becomes `core`. A name without
      digits is left alone. */
  lemma ModuleNameRemoves(a: string, p: string, b: string)
    requires DigitFree(a) && DigitFree(b) && p in PREFIXES
    ensures ModuleName(a + p + b) == a + b
    ensures ModuleName(a + b) == a + b
  {
    PrefixesShape();
    assert PrefixLike(p);
    RemoveFromInside(a, p, b, PREFIXES, 0);
    assert PREFIXES[0..] == PREFIXES;
    assert DigitFree(a + b);
    RemoveFromDigitFree(a + b, PREFIXES, 0);
  }

  /** Removing prefixes adds no character to a name. */
  lemma {:induction false} RemoveFromChars(s: string, ps: seq<string>, i: nat, c: char)
    ensures c in RemoveFrom(s, ps, i) ==> c in s
    decreases |ps| - i
  {
    if i < |ps| && ps[i] == "" {
      RemoveFromChars(s, ps, i + 1, c);
    } else if i < |ps| {
      RemoveFromChars(Replace(s, ps[i], ""), ps, i + 1, c);
      ReplaceKeepsChars(s, ps[i], c);
    }
  }

  // ---------------------------------------------------------------- header lines

  /** The depends line of the header. */
  function DependsLine(depends: seq<string>): string {
    if depends != [] then "# Depends: " + Join(", ", depends) else "# Depends: none"
  }

  /** The depends line reads `none` for a section with no dependencies, and also for the
      one whose only dependency is called `none`: the line does not tell these apart. */
  lemma DependsLineNone(depends: seq<string>)
    ensures DependsLine(depends) == "# Depends: none" <==> depends == [] || depends == ["none"]
  {
    var line := DependsLine(depends);
    if |depends| >= 2 {
      var j := Join(", ", depends);
      assert j == depends[0] + ", " + Join(", ", depends[1..]);
      var k := |depends[0]|;
      assert line[11 + k] == ',';
      assert line != "# Depends: none" by {
        if |line| == 15 {
          assert k < 4;
          assert "# Depends: none"[11 + k] != ',';
        }
      }
    } else if |depends| == 1 {
      assert Join(", ", depends) == depends[0];
      assert depends[0] == line[11..];
    }
  }

  /** `sep.join(parts)` holds only characters of `sep` and of the parts. */
  lemma {:induction false} JoinChars(sep: string, parts: seq<string>, c: char)
    requires c !in sep && forall i :: 0 <= i < |parts| ==> c !in parts[i]
    ensures c !in Join(sep, parts)
    decreases |parts|
  {
    if |parts| > 1 {
      JoinChars(sep, parts[1..], c);
    }
  }

  /** The load line of the header. */
  function LoadWhen(condition: string): string {
    if condition == "always" then "always" else "conditional (" + condition + ")"
  }

  /** Reading the condition back from a load line. */
  function ConditionOf(loadWhen: string): string {
    if loadWhen == "always" then "always"
    else if |loadWhen| >= 14 then loadWhen[13..|loadWhen| - 1]
    else loadWhen
  }

  /** The load line says `always` exactly for the condition `always`, and gives back the
      condition it was written from. */
  lemma LoadWhenRoundTrip(condition: string)
    ensures LoadWhen(condition) == "always" <==> condition == "always"
    ensures ConditionOf(LoadWhen(condition)) == condition
  {
    if condition != "always" {
      var lw := LoadWhen(condition);
      assert |lw| == 14 + |condition|;
      assert lw[13..|lw| - 1] == condition;
    }
  }

  /** A third of the ruler's 66 dashes. */
  const DASHES: string := "----------------------"

  /** The ruler line above and below the header: `#`, a space and 66 dashes. */
  const RULE: string := "# " + DASHES + DASHES + DASHES

  /** The ruler is a comment line of its own. */
  lemma RuleIsComment()
    ensures '\n' !in RULE && RULE[..1] == "#"
  {
    assert '\n' !in DASHES;
  }

  /** The lines of the header `create_module_header(name, load_condition, depends)` builds:
      the ruler, the module name, the load line, the depends line, the ruler again and a
      blank line. */
  function HeaderLines(name: string, condition: string, depends: seq<string>): (ls: seq<string>) {
    LinesOf(ModuleName(name), LoadWhen(condition), DependsLine(depends))
  }

  /** The header lines for a module name, a load line and a depends line. */
  function LinesOf(moduleName: string, loadWhen: string, dependsLine: string): seq<string> {
    [RULE, "# Module: " + moduleName, "# Loaded when: " + loadWhen, dependsLine, RULE, ""]
  }

  /** Lines that are comments without newlines, written line by line, split back. */
  lemma LinesOfSplit(moduleName: string, loadWhen: string, dependsLine: string)
    requires '\n' !in moduleName && '\n' !in loadWhen && '\n' !in dependsLine && StartsWith(dependsLine, "#")
    ensures var ls := LinesOf(moduleName, loadWhen, dependsLine);
      SplitOn(Unlines(ls), '\n') == ls + [""] && |ls| == 6 && ls[5] == "" && forall i :: 0 <= i < 5 ==> StartsWith(ls[i], "#")
  {
    var ls := LinesOf(moduleName, loadWhen, dependsLine);
    RuleIsComment();
    LabelsAreComments();
    CommentLine("# Module: ", moduleName);
    CommentLine("# Loaded when: ", loadWhen);
    SplitUnlines(ls);
  }

  /** `create_module_header`: its multi-line f-string, each line ended by a newline. */
  function CreateModuleHeader(name: string, condition: string, depends: seq<string>): string {
    Unlines(HeaderLines(name, condition, depends))
  }

  predicate NoNewline(s: string) {
    '\n' !in s
  }

  /** The header is five comment lines and a blank line: split at its newlines it gives
      back exactly those lines (and the empty piece after the last newline), as long as the
      name, the condition and the dependencies hold no newline. */
  lemma HeaderSplits(name: string, condition: string, depends: seq<string>)
    requires NoNewline(name) && NoNewline(condition) && forall i :: 0 <= i < |depends| ==> NoNewline(depends[i])
    ensures var ls := HeaderLines(name, condition, depends);
      SplitOn(CreateModuleHeader(name, condition, depends), '\n') == ls + [""]
      && |ls| == 6 && ls[5] == "" && forall i :: 0 <= i < 5 ==> StartsWith(ls[i], "#")
  {
    ModuleNameOneLine(name);
    LoadWhenOneLine(condition);
    DependsLineOneLine(depends);
    LinesOfSplit(ModuleName(name), LoadWhen(condition), DependsLine(depends));
  }

  lemma ModuleNameOneLine(name: string)
    requires NoNewline(name)
    ensures '\n' !in ModuleName(name)
  {
    RemoveFromChars(name, PREFIXES, 0, '\n');
  }

  lemma LoadWhenOneLine(condition: string)
    requires NoNewline(condition)
    ensures '\n' !in LoadWhen(condition)
  {
    LabelsAreComments();
  }

  lemma DependsLineOneLine(depends: seq<string>)
    requires forall i :: 0 <= i < |depends| ==> NoNewline(depends[i])
    ensures '\n' !in DependsLine(depends) && StartsWith(DependsLine(depends), "#")
  {
    LabelsAreComments();
    if depends != [] {
      JoinChars(", ", depends, '\n');
      CommentLine("# Depends: ", Join(", ", depends));
    }
  }

  /** The labels of the header lines are comments without a newline. */
  lemma LabelsAreComments()
    ensures '\n' !in "# Module: " && StartsWith("# Module: ", "#")
    ensures '\n' !in "# Loaded when: " && StartsWith("# Loaded when: ", "#")
    ensures '\n' !in "# Depends: " && StartsWith("# Depends: ", "#")
    ensures '\n' !in "# Depends: none" && StartsWith("# Depends: none", "#")
    ensures '\n' !in ", " && '\n' !in "always" && '\n' !in "conditional (" && '\n' !in ")"
  {
  }

  /** A comment tag followed by a value without a newline is one comment line. */
  lemma CommentLine(tag: string, v: string)
    requires '\n' !in tag && '\n' !in v && StartsWith(tag, "#")
    ensures '\n' !in tag + v && StartsWith(tag + v, "#")
  {
    assert (tag + v)[..1] == tag[..1];
  }

  // ---------------------------------------------------------------- content

  /** The marker strings of the original file's own header. */
  predicate Marked(line: string) {
    Contains(line, "Enhanced Shell Aliases") || Contains(line, "CachyOS Linux Optimized") || Contains(line, "============")
  }

  /** The lines a drop test keeps. */
  function Keep(drop: string -> bool): string -> bool {
    line => !drop(line)
  }

  predicate IsComment(line: string) {
    StartsWith(Strip(line), "#")
  }

  /** How many header lines at most `process_content` counts. */
  const HEADER_BUDGET: nat := 15

  /** The lines `process_content` keeps from `lines`, with `skip` and `count` the values
      of `skip_header` and `header_lines` on reaching them and `drop` the marker test. */
  function KeptFrom(lines: seq<string>, skip: bool, count: nat, drop: string -> bool): seq<string> {
    if lines == [] then []
    else if skip && IsComment(lines[0]) && count < HEADER_BUDGET then
      (if drop(lines[0]) then [] else [lines[0]]) + KeptFrom(lines[1..], skip, count + 1, drop)
    else [lines[0]] + KeptFrom(lines[1..], false, count, drop)
  }

  /** The leading run of comment lines, at most `budget` of them. */
  function LeadRun(lines: seq<string>, budget: nat): (n: nat)
    ensures n <= |lines| && n <= budget
    ensures forall i :: 0 <= i < n ==> IsComment(lines[i])
    ensures n < |lines| && n < budget ==> !IsComment(lines[n])
  {
    if lines == [] || budget == 0 || !IsComment(lines[0]) then 0
    else 1 + LeadRun(lines[1..], budget - 1)
  }

  /** Once the header is over, every line is kept. */
  lemma {:induction false} KeptAll(lines: seq<string>, count: nat, drop: string -> bool)
    ensures KeptFrom(lines, false, count, drop) == lines
    decreases |lines|
  {
    if lines != [] {
      KeptAll(lines[1..], count, drop);
    }
  }

  /** In the first module, of the leading comment run (at most the budget left), the lines
      with a marker are dropped; every line after it is kept. */
  lemma {:induction false} KeptHeader(lines: seq<string>, count: nat, drop: string -> bool)
    requires count <= HEADER_BUDGET
    ensures var n := LeadRun(lines, HEADER_BUDGET - count);
      KeptFrom(lines, true, count, drop) == Filter(lines[..n], Keep(drop)) + lines[n..]
    decreases |lines|
  {
    if lines == [] {
      assert Filter(lines[..0], Keep(drop)) == [];
    } else if IsComment(lines[0]) && count < HEADER_BUDGET {
      KeptHeader(lines[1..], count + 1, drop);
      var m := HeadCounted(lines, count, drop);
      HeaderStep(lines, m, drop);
    } else {
      KeptAll(lines[1..], count, drop);
      HeadOver(lines, count, drop);
      assert Filter(lines[..0], Keep(drop)) == [];
    }
  }

  /** A counted comment line: kept unless marked, and one more line of the leading run. */
  lemma HeadCounted(lines: seq<string>, count: nat, drop: string -> bool) returns (m: nat)
    requires lines != [] && IsComment(lines[0]) && count < HEADER_BUDGET
    ensures m == LeadRun(lines[1..], HEADER_BUDGET - (count + 1)) && m <= |lines| - 1
    ensures LeadRun(lines, HEADER_BUDGET - count) == m + 1
    ensures KeptFrom(lines, true, count, drop)
         == (if drop(lines[0]) then [] else [lines[0]]) + KeptFrom(lines[1..], true, count + 1, drop)
  {
    m := LeadRun(lines[1..], HEADER_BUDGET - (count + 1));
  }

  /** A line that is not a counted comment line ends the header. */
  lemma HeadOver(lines: seq<string>, count: nat, drop: string -> bool)
    requires lines != [] && count <= HEADER_BUDGET && !(IsComment(lines[0]) && count < HEADER_BUDGET)
    ensures LeadRun(lines, HEADER_BUDGET - count) == 0
    ensures KeptFrom(lines, true, count, drop) == [lines[0]] + KeptFrom(lines[1..], false, count, drop)
  {
  }

  /** One counted comment line at the head of the header. */
  lemma HeaderStep(lines: seq<string>, m: nat, drop: string -> bool)
    requires lines != [] && m <= |lines| - 1
    ensures Filter(lines[..m + 1], Keep(drop)) + lines[m + 1..]
         == (if drop(lines[0]) then [] else [lines[0]]) + (Filter(lines[1..][..m], Keep(drop)) + lines[1..][m..])
  {
    assert lines[..m + 1] == [lines[0]] + lines[1..][..m];
    FilterCons(lines[0], lines[1..][..m], Keep(drop));
    assert lines[m + 1..] == lines[1..][m..];
  }

  /** The line every module ends with, for the caller's error check. */
  const FOOTER: string := "# Module loaded successfully\nreturn 0\n"

  /** The text `process_content(content, is_first)` returns. */
  function Processed(content: seq<string>, isFirst: bool): string {
    RStrip(Concat(KeptFrom(content, isFirst, 0, Marked))) + "\n\n" + FOOTER
  }

  /** A module that is not first keeps all its lines; the first loses the marked lines of
      its leading comment run, at most fifteen lines long. Either way the kept text is
      right-stripped and the footer follows a blank line. */
  lemma ProcessedSpec(content: seq<string>)
    ensures Processed(content, false) == RStrip(Concat(content)) + "\n\n" + FOOTER
    ensures var n := LeadRun(content, HEADER_BUDGET);
      n <= 15 && Processed(content, true) == RStrip(Concat(Filter(content[..n], Keep(Marked)) + content[n..])) + "\n\n" + FOOTER
  {
    KeptAll(content, 0, Marked);
    KeptHeader(content, 0, Marked);
  }

  /** One line of `process_content`: a counted comment line is kept unless marked; any
      other line is kept and ends the header. */
  lemma KeptStep(done: seq<string>, lines: seq<string>, skip: bool, count: nat, drop: string -> bool)
    requires lines != []
    ensures var rest := KeptFrom(lines[1..], skip && IsComment(lines[0]) && count < HEADER_BUDGET,
                                 if skip && IsComment(lines[0]) && count < HEADER_BUDGET then count + 1 else count, drop);
      done + KeptFrom(lines, skip, count, drop)
      == (if skip && IsComment(lines[0]) && count < HEADER_BUDGET && drop(lines[0]) then done else done + [lines[0]]) + rest
  {
  }

  /** `process_content`: the loop over the lines with its two counters. */
  method ProcessContent(content: seq<string>, isFirst: bool) returns (r: string)
    ensures r == Processed(content, isFirst)
  {
    var processed: seq<string> := [];
    var skip := isFirst;
    var headerLines: nat := 0;
    for i := 0 to |content|
      invariant processed + KeptFrom(content[i..], skip, headerLines, Marked) == KeptFrom(content, isFirst, 0, Marked)
    {
      var line := content[i];
      KeptStep(processed, content[i..], skip, headerLines, Marked);
      assert content[i..][0] == line && content[i..][1..] == content[i + 1..];
      if skip && StartsWith(Strip(line), "#") && headerLines < 15 {
        headerLines := headerLines + 1;
        if !Marked(line) {
          processed := processed + [line];
        }
      } else {
        skip := false;
        processed := processed + [line];
      }
    }
    assert content[|content|..] == [];
    assert processed + KeptFrom([], skip, headerLines, Marked) == processed;
    r := RStrip(Concat(processed)) + "\n\n" + FOOTER;
  }

  // ---------------------------------------------------------------- main

  /** One entry of `aliases_sections.json`. */
  datatype Meta = Meta(start: int, end: int, priority: int, depends: seq<string>, condition: string)

  /** One entry of the `sections` dict `main` rebuilds. */
  datatype Section = Section(name: string, priority: int, depends: seq<string>, condition: string, content: seq<string>)

  /** A module file `main` writes. */
  datatype ModuleFile = ModuleFile(fileName: string, text: string)

  /** Python's reading of a slice bound `i` on a list of length `n`. */
  function SliceBound(i: int, n: nat): (b: nat)
    ensures b <= n
  {
    if i < 0 then Max(0, i + n) else Min(i, n)
  }

  /** `s[a:b]` with Python's negative indices and clamping. */
  function PySlice<T>(s: seq<T>, a: int, b: int): (r: seq<T>)
    ensures 0 <= a <= b <= |s| ==> r == s[a..b]
    ensures 0 <= b <= a ==> r == []
    ensures |r| <= |s|
  {
    var lo := SliceBound(a, |s|);
    var hi := SliceBound(b, |s|);
    if lo < hi then s[lo..hi] else []
  }

  /** The entry of the `sections` dict for the key `k`: the slice `all_lines[start:end + 1]`. */
  function SectionFor(k: string, meta: map<string, Meta>, lines: seq<string>): Section
    requires k in meta
  {
    var m := meta[k];
    Section(k, m.priority, m.depends, m.condition, PySlice(lines, m.start, m.end + 1))
  }

  /** The `sections` dict, in the metadata's key order. */
  function SectionsOf(keys: seq<string>, meta: map<string, Meta>, lines: seq<string>): (ss: seq<Section>)
    requires forall k :: k in keys ==> k in meta
    ensures |ss| == |keys| && forall i :: 0 <= i < |keys| ==> ss[i] == SectionFor(keys[i], meta, lines)
  {
    if keys == [] then [] else [SectionFor(keys[0], meta, lines)] + SectionsOf(keys[1..], meta, lines)
  }

  function PriorityKey(s: Section): Ext {
    Fin(s.priority)
  }

  /** The modules in the order `main` writes them. */
  function Ordered(meta: Dict<string, Meta>, lines: seq<string>): seq<Section>
    requires Valid(meta)
  {
    SortBy(SectionsOf(meta.keys, meta.at, lines), PriorityKey)
  }

  /** `main` writes every section once, in ascending priority, keeping the metadata's order
      among equal priorities. */
  lemma OrderedSpec(meta: Dict<string, Meta>, lines: seq<string>, p: int)
    requires Valid(meta)
    ensures var ss := SectionsOf(meta.keys, meta.at, lines);
      SortedBy(Ordered(meta, lines), PriorityKey) && multiset(Ordered(meta, lines)) == multiset(ss)
      && Filter(Ordered(meta, lines), KeyIs(PriorityKey, Fin(p))) == Filter(ss, KeyIs(PriorityKey, Fin(p)))
  {
    SortBySorted(SectionsOf(meta.keys, meta.at, lines), PriorityKey);
    SortByStable(SectionsOf(meta.keys, meta.at, lines), PriorityKey, Fin(p));
  }

  /** The file for the module `s`, the `i`-th written. */
  function ModuleFileFor(s: Section, i: nat): ModuleFile {
    ModuleFile(s.name + ".aliases", CreateModuleHeader(s.name, s.condition, s.depends) + Processed(s.content, i == 0))
  }

  /** The slicing loop of `main`: the section of each metadata key, in the metadata's
      order. */
  method SliceSections(keys: seq<string>, meta: map<string, Meta>, lines: seq<string>) returns (sections: seq<Section>)
    requires forall k :: k in keys ==> k in meta
    ensures sections == SectionsOf(keys, meta, lines)
  {
    sections := [];
    for j := 0 to |keys|
      invariant |sections| == j && forall i :: 0 <= i < j ==> sections[i] == SectionFor(keys[i], meta, lines)
    {
      var name := keys[j];
      var m := meta[name];
      var section := Section(name, m.priority, m.depends, m.condition, PySlice(lines, m.start, m.end + 1));
      assert section == SectionFor(keys[j], meta, lines);
      sections := sections + [section];
    }
  }

  /** The splitting of `main`: each section sliced from the lines, the sections written in
      ascending priority, and only the first one treated as the file's head. */
  method SplitModules(meta: Dict<string, Meta>, lines: seq<string>) returns (files: seq<ModuleFile>)
    requires Valid(meta)
    ensures var ord := Ordered(meta, lines);
      |files| == |meta.keys| && forall i :: 0 <= i < |files| ==> files[i] == ModuleFileFor(ord[i], i)
  {
    var sections := SliceSections(meta.keys, meta.at, lines);
    var sorted := SortBy(sections, PriorityKey);
    assert |sorted| == |sections| == |meta.keys| by {
      assert |multiset(sorted)| == |multiset(sections)|;
    }
    files := WriteModules(sorted);
  }

  /** The writing loop of `main` over the sorted sections. */
  method WriteModules(sorted: seq<Section>) returns (files: seq<ModuleFile>)
    ensures |files| == |sorted| && forall i :: 0 <= i < |files| ==> files[i] == ModuleFileFor(sorted[i], i)
  {
    files := [];
    for i := 0 to |sorted|
      invariant |files| == i && forall k :: 0 <= k < i ==> files[k] == ModuleFileFor(sorted[k], k)
    {
      var s := sorted[i];
      var header := CreateModuleHeader(s.name, s.condition, s.depends);
      var content := ProcessContent(s.content, i == 0);
      var file := ModuleFile(s.name + ".aliases", header + content);
      FileFor(s, i, header, content);
      assert file == ModuleFileFor(sorted[i], i);
      files := files + [file];
    }
  }

  lemma FileFor(s: Section, i: nat, header: string, content: string)
    requires header == CreateModuleHeader(s.name, s.condition, s.depends) && content == Processed(s.content, i == 0)
    ensures ModuleFile(s.name + ".aliases", header + content) == ModuleFileFor(s, i)
  {
  }
}
