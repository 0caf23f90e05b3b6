/** analyze_aliases_sections.py (the copies in app/ and scripts/bin/ share this logic):
    split the lines of a `.aliases` file into named sections, by header comments when the
    file has them and by keywords when it has none. File reading, JSON and pickle output
    are left out; the lines arrive as a sequence. */
module AliasSections {
  import opened PyNum
  import opened PySort
  import opened PyStr
  import opened PyDict

  /** The `Section` named tuple; `end` is inclusive and can be -1 for an empty slice. */
  datatype Section = Section(name: string, start: int, end: int, priority: nat, depends: seq<string>,
                             condition: string, content: seq<string>)

  /** One entry of `section_patterns`: the regular expression, written as its literal
      pieces between `.*`, and the section it names. */
  datatype Rule = Rule(pattern: seq<string>, name: string, priority: nat, depends: seq<string>, condition: string)

  /** `section_patterns`, in dict order. */
  const SECTION_PATTERNS: seq<Rule> := [
    Rule(["General & Navigation"], "00-core", 0, [], "always"),
    Rule(["File & Directory Management"], "10-files", 1, [], "always"),
    Rule(["Yazi File Manager"], "15-yazi", 2, ["yazi"], "(( ${+commands[yazi]} ))"),
    Rule(["System Management"], "20-system", 3, [], "always"),
    Rule(["Package Management", "CachyOS"], "30-package", 4, ["pacman"], "(( ${+commands[pacman]} || ${+commands[brew]} ))"),
    Rule(["Media & Downloads"], "40-media", 5, ["youtube-dl", "yt-dlp"], "(( ${+commands[yt-dlp]} || ${+commands[youtube-dl]} ))"),
    Rule(["Git & Development"], "50-git", 6, ["git"], "(( ${+commands[git]} ))"),
    Rule(["Tmux Shortcuts"], "55-tmux", 7, ["tmux"], "(( ${+commands[tmux]} ))"),
    Rule(["Shell, Apps", "Custom Commands"], "60-apps", 8, [], "always"),
    Rule(["AI/Ollama Tools"], "65-ai", 9, ["ollama"], "(( ${+commands[ollama]} ))"),
    Rule(["Productivity", "Advanced"], "70-productivity", 10, [], "always"),
    Rule(["Modern CLI Tool Shortcuts"], "75-modern", 11, ["fd", "rg", "bat"], "always"),
    Rule(["CachyOS", "Performance"], "80-performance", 12, [], "always"),
    Rule(["Enhanced Development"], "85-development", 13, ["nvim"], "(( ${+commands[nvim]} ))"),
    Rule(["Modern File Operations"], "90-operations", 14, [], "always"),
    Rule(["AUR-Safe", "Aliases"], "95-aur-safe", 15, [], "always")
  ]

  // ---------------------------------------------------------------- pattern search

  /** `sub` occurs in `s` at `k`. */
  predicate At(s: string, sub: string, k: int) {
    0 <= k && k + |sub| <= |s| && s[k..k + |sub|] == sub
  }

  /** The first place at or after `from` where `sub` occurs in `s`. */
  function FindFrom(s: string, sub: string, from: nat): (r: Option<nat>)
    ensures r.Some? ==> from <= r.value && At(s, sub, r.value) && forall k :: from <= k < r.value ==> !At(s, sub, k)
    ensures r.None? ==> forall k :: from <= k ==> !At(s, sub, k)
    decreases |s| - from
  {
    if from + |sub| > |s| then None
    else if s[from..from + |sub|] == sub then Some(from)
    else FindFrom(s, sub, from + 1)
  }

  /** The search a regular expression `p1.*p2.*...` makes from `from`: each piece taken at
      its first occurrence after the previous piece. */
  predicate SearchFrom(pieces: seq<string>, s: string, from: nat)
    decreases |pieces|
  {
    if pieces == [] then true
    else
      match FindFrom(s, pieces[0], from)
      case None => false
      case Some(k) => SearchFrom(pieces[1..], s, k + |pieces[0]|)
  }

  /** What the regular expression means: the pieces occur in order, without overlapping,
      somewhere at or after `from`. */
  ghost predicate Embeds(pieces: seq<string>, s: string, from: int)
    decreases |pieces|
  {
    pieces == [] || exists k :: from <= k && At(s, pieces[0], k) && Embeds(pieces[1..], s, k + |pieces[0]|)
  }

  lemma EmbedsEarlier(pieces: seq<string>, s: string, a: int, b: int)
    requires a <= b && Embeds(pieces, s, b)
    ensures Embeds(pieces, s, a)
  {
    if pieces != [] {
      var k :| b <= k && At(s, pieces[0], k) && Embeds(pieces[1..], s, k + |pieces[0]|);
      assert a <= k;
    }
  }

  /** Taking each piece at its first occurrence finds a match whenever there is one. */
  lemma {:induction false} SearchFindsEmbedding(pieces: seq<string>, s: string, from: nat)
    ensures SearchFrom(pieces, s, from) <==> Embeds(pieces, s, from)
    decreases |pieces|
  {
    if pieces != [] {
      var p := pieces[0];
      match FindFrom(s, p, from)
      case None =>
      case Some(k0) =>
        SearchFindsEmbedding(pieces[1..], s, k0 + |p|);
        if Embeds(pieces, s, from) {
          var k :| from <= k && At(s, p, k) && Embeds(pieces[1..], s, k + |p|);
          EmbedsEarlier(pieces[1..], s, k0 + |p|, k + |p|);
        }
    }
  }

  /** `re.search(pattern, line, re.IGNORECASE)` for ASCII letters. */
  predicate Matches(r: Rule, line: string) {
    SearchFrom(Map(Lower, r.pattern), Lower(line), 0)
  }

  /** The first rule, in dict order, whose pattern matches `line`. */
  function FirstMatch(pats: seq<Rule>, line: string): Option<Rule> {
    if pats == [] then None
    else if Matches(pats[0], line) then Some(pats[0])
    else FirstMatch(pats[1..], line)
  }

  /** The rule found matches and every rule before it fails; no rule is found exactly when
      none matches. */
  lemma {:induction false} FirstMatchSpec(pats: seq<Rule>, line: string)
    ensures var r := FirstMatch(pats, line);
      && (r.Some? ==> exists i :: 0 <= i < |pats| && pats[i] == r.value && Matches(r.value, line)
                                  && forall j :: 0 <= j < i ==> !Matches(pats[j], line))
      && (r.None? <==> forall i :: 0 <= i < |pats| ==> !Matches(pats[i], line))
    decreases |pats|
  {
    if pats != [] && !Matches(pats[0], line) {
      FirstMatchSpec(pats[1..], line);
      var r := FirstMatch(pats, line);
      if r.Some? {
        var i :| 0 <= i < |pats[1..]| && pats[1..][i] == r.value && Matches(r.value, line)
                 && forall j :: 0 <= j < i ==> !Matches(pats[1..][j], line);
        assert pats[i + 1] == r.value;
        assert forall j :: 0 <= j < i + 1 ==> !Matches(pats[j], line) by {
          forall j | 0 <= j < i + 1 ensures !Matches(pats[j], line) {
            if j > 0 { assert pats[j] == pats[1..][j - 1]; }
          }
        }
      } else {
        forall i | 0 <= i < |pats| ensures !Matches(pats[i], line) {
          if i > 0 { assert pats[i] == pats[1..][i - 1]; }
        }
      }
    } else if pats != [] {
      assert pats[0] == FirstMatch(pats, line).value;
    }
  }

  // ---------------------------------------------------------------- the header scan

  /** The rule a line opens a section with: stripped, it starts with `#` and some pattern
      matches it. */
  function HeadOf(line: string, pats: seq<Rule>): Option<Rule> {
    if StartsWith(Strip(line), "#") then FirstMatch(pats, Strip(line)) else None
  }

  /** A line is a header exactly when, stripped, it starts with `#` and some pattern
      matches it; its rule is the first such one in dict order. */
  lemma HeadOfSpec(line: string, pats: seq<Rule>)
    ensures var r := HeadOf(line, pats);
      && (r.None? <==> !StartsWith(Strip(line), "#") || forall i :: 0 <= i < |pats| ==> !Matches(pats[i], Strip(line)))
      && (r.Some? ==> exists i :: 0 <= i < |pats| && pats[i] == r.value && Matches(r.value, Strip(line))
                                  && forall j :: 0 <= j < i ==> !Matches(pats[j], Strip(line)))
  {
    FirstMatchSpec(pats, Strip(line));
  }

  /** The header rule, if any, of every line. */
  function Heads(lines: seq<string>, pats: seq<Rule>): (hs: seq<Option<Rule>>)
    ensures |hs| == |lines| && forall i :: 0 <= i < |lines| ==> hs[i] == HeadOf(lines[i], pats)
  {
    seq(|lines|, i requires 0 <= i < |lines| => HeadOf(lines[i], pats))
  }

  /** The first header at or after `from`, or the end of the file. */
  function NextFrom(hs: seq<Option<Rule>>, from: nat): (r: nat)
    requires from <= |hs|
    ensures from <= r <= |hs| && (r < |hs| ==> hs[r].Some?)
    ensures forall j :: from <= j < r ==> hs[j].None?
    decreases |hs| - from
  {
    if from == |hs| then from
    else if hs[from].Some? then from
    else NextFrom(hs, from + 1)
  }

  lemma NextFromIs(hs: seq<Option<Rule>>, from: nat, e: nat)
    requires from <= e <= |hs| && (e < |hs| ==> hs[e].Some?)
    requires forall j :: from <= j < e ==> hs[j].None?
    ensures NextFrom(hs, from) == e
  {
    var n := NextFrom(hs, from);
    if n < e {
      assert false;
    } else if e < n {
      assert false;
    }
  }

  /** The state of the header loop: the open section and where it started, and the
      sections closed so far. */
  datatype HeaderScan = HeaderScan(current: Option<Rule>, start: nat, sections: Dict<string, Section>)

  /** The section rule `r` opens at `start` and line `end` closes. */
  function Opened(r: Rule, lines: seq<string>, start: nat, end: nat): Section
    requires start <= end <= |lines|
  {
    Section(r.name, start, end - 1, r.priority, r.depends, r.condition, lines[start..end])
  }

  /** The sections with the open one closed just before line `end`. */
  function Close(st: HeaderScan, lines: seq<string>, end: nat): (d: Dict<string, Section>)
    requires Valid(st.sections) && st.start <= end <= |lines|
    ensures Valid(d)
  {
    match st.current
    case None => st.sections
    case Some(r) => Put(st.sections, r.name, Opened(r, lines, st.start, end))
  }

  /** Line `i` of the header loop, `h` its header rule if it has one: a header closes the
      open section and opens its own. */
  function ScanNext(st: HeaderScan, lines: seq<string>, h: Option<Rule>, i: nat): (r: HeaderScan)
    requires Valid(st.sections) && st.start <= i <= |lines|
    ensures r.start <= i && Valid(r.sections)
  {
    if h.Some? then HeaderScan(h, i, Close(st, lines, i)) else st
  }

  /** The header loop after its first `i` lines, `hs` holding the header rule of each line. */
  function ScanTo(lines: seq<string>, hs: seq<Option<Rule>>, i: nat): (st: HeaderScan)
    requires i <= |lines| == |hs|
    ensures st.start <= i && Valid(st.sections)
  {
    if i == 0 then HeaderScan(None, 0, Empty())
    else ScanNext(ScanTo(lines, hs, i - 1), lines, hs[i - 1], i - 1)
  }

  /** The sections the header scan finds. */
  function HeaderSections(lines: seq<string>, pats: seq<Rule>): (d: Dict<string, Section>)
    ensures Valid(d)
  {
    var hs := Heads(lines, pats);
    Close(ScanTo(lines, hs, |lines|), lines, |lines|)
  }

  /** Section `s` is the slice from a header to the next header (or the end of the file),
      named, prioritised and conditioned by the header's rule. */
  ghost predicate FromHeader(lines: seq<string>, hs: seq<Option<Rule>>, s: Section)
    requires |lines| == |hs|
  {
    && 0 <= s.start < |hs| && hs[s.start].Some?
    && s.end + 1 == NextFrom(hs, s.start + 1)
    && s == Opened(hs[s.start].value, lines, s.start, s.end + 1)
  }

  /** No header in `[from, to)` has the name `n`. */
  ghost predicate NameAbsent(hs: seq<Option<Rule>>, n: string, from: int, to: int)
    requires to <= |hs|
  {
    forall j :: 0 <= from <= j < to && hs[j].Some? ==> hs[j].value.name != n
  }

  /** Section `s`, stored under `n`, is from a header before `before`, under its own name,
      and the last header of that name before `before`. */
  ghost predicate LastOfName(lines: seq<string>, hs: seq<Option<Rule>>, s: Section, n: string, before: nat)
    requires |lines| == |hs| && before <= |hs|
  {
    FromHeader(lines, hs, s) && s.name == n && s.start < before && NameAbsent(hs, n, s.start + 1, before)
  }

  /** The closed sections: each the last of its name before `before`. */
  ghost predicate ClosedOk(lines: seq<string>, hs: seq<Option<Rule>>, d: Dict<string, Section>, before: nat)
    requires |lines| == |hs| && before <= |hs|
  {
    forall n :: n in d.at ==> LastOfName(lines, hs, d.at[n], n, before)
  }

  /** What the header loop knows after `i` lines. */
  ghost predicate ScanInv(lines: seq<string>, hs: seq<Option<Rule>>, i: nat, st: HeaderScan)
    requires i <= |lines| == |hs|
  {
    && st.start <= i
    && (st.current.None? ==> st.sections.at == map[] && forall h :: 0 <= h < i ==> hs[h].None?)
    && (st.current.Some? ==>
          && st.start < i && hs[st.start] == st.current
          && (forall j :: st.start < j < i ==> hs[j].None?)
          && (forall h :: 0 <= h < st.start && hs[h].Some? ==> hs[h].value.name in st.sections.at))
    && ClosedOk(lines, hs, st.sections, st.start)
  }

  /** The open section, closed at a header or the end, is a section from its header under
      its own name, and no later header before `i` has that name. */
  lemma OpenedOk(lines: seq<string>, hs: seq<Option<Rule>>, i: nat, st: HeaderScan)
    requires i <= |lines| == |hs| && ScanInv(lines, hs, i, st) && st.current.Some?
    requires i < |hs| ==> hs[i].Some?
    ensures LastOfName(lines, hs, Opened(st.current.value, lines, st.start, i), st.current.value.name, i)
  {
    NextFromIs(hs, st.start + 1, i);
  }

  /** A section closed earlier stays the last of its name when the header at `start`,
      followed by no other before `i`, has another name. */
  lemma EarlierOk(lines: seq<string>, hs: seq<Option<Rule>>, s: Section, n: string, start: nat, i: nat)
    requires start < i <= |lines| == |hs| && LastOfName(lines, hs, s, n, start)
    requires hs[start].Some? && hs[start].value.name != n
    requires forall j :: start < j < i ==> hs[j].None?
    ensures LastOfName(lines, hs, s, n, i)
  {
    forall j | 0 <= s.start + 1 <= j < i && hs[j].Some?
      ensures hs[j].value.name != n
    {
      if j > start {
        assert false;
      }
    }
  }

  /** Closing the open section at a header or the end keeps the closed sections right and
      adds the open one. */
  lemma CloseOk(lines: seq<string>, hs: seq<Option<Rule>>, i: nat, st: HeaderScan)
    requires i <= |lines| == |hs| && ScanInv(lines, hs, i, st) && Valid(st.sections) && st.start <= i
    requires i < |hs| ==> hs[i].Some?
    ensures ClosedOk(lines, hs, Close(st, lines, i), i)
    ensures forall h :: 0 <= h < i && hs[h].Some? ==> hs[h].value.name in Close(st, lines, i).at
    ensures Close(st, lines, i).at == map[] <==> forall h :: 0 <= h < i ==> hs[h].None?
  {
    if st.current.Some? {
      var r := st.current.value;
      var d := Close(st, lines, i);
      OpenedOk(lines, hs, i, st);
      assert d.at == st.sections.at[r.name := Opened(r, lines, st.start, i)];
      forall n | n in d.at
        ensures LastOfName(lines, hs, d.at[n], n, i)
      {
        if n != r.name {
          EarlierOk(lines, hs, st.sections.at[n], n, st.start, i);
        }
      }
      assert hs[st.start].Some?;
    }
  }

  lemma {:induction false} ScanToInv(lines: seq<string>, hs: seq<Option<Rule>>, i: nat)
    requires i <= |lines| == |hs|
    ensures ScanInv(lines, hs, i, ScanTo(lines, hs, i))
    decreases i
  {
    if i > 0 {
      ScanToInv(lines, hs, i - 1);
      if hs[i - 1].Some? {
        CloseOk(lines, hs, i - 1, ScanTo(lines, hs, i - 1));
        assert ClosedOk(lines, hs, ScanTo(lines, hs, i).sections, i - 1);
      }
    }
  }

  /** The sections of the header scan: each runs from a header to the next header or the
      end of the file, named by the header's first matching rule, and is the last header
      of that name; every header's name is present; there are none exactly when no line is
      a header, so lines before the first header belong to no section. */
  lemma HeaderSectionsSpec(lines: seq<string>, pats: seq<Rule>)
    ensures var hs, d := Heads(lines, pats), HeaderSections(lines, pats);
      && ClosedOk(lines, hs, d, |lines|)
      && (forall h :: 0 <= h < |lines| && hs[h].Some? ==> hs[h].value.name in d.at)
      && (d.at == map[] <==> forall h :: 0 <= h < |lines| ==> HeadOf(lines[h], pats).None?)
  {
    var hs := Heads(lines, pats);
    ScanToInv(lines, hs, |lines|);
    CloseOk(lines, hs, |lines|, ScanTo(lines, hs, |lines|));
  }

  /** The `for pattern ...: if re.search(...): ... break` loop. */
  method FindRule(pats: seq<Rule>, line: string) returns (r: Option<Rule>)
    ensures r == FirstMatch(pats, line)
  {
    r := None;
    var k := 0;
    while k < |pats|
      invariant 0 <= k <= |pats|
      invariant FirstMatch(pats, line) == FirstMatch(pats[k..], line)
    {
      if Matches(pats[k], line) {
        r := Some(pats[k]);
        return;
      }
      assert pats[k..][1..] == pats[k + 1..];
      k := k + 1;
    }
  }

  // ---------------------------------------------------------------- the keyword fallback

  /** `any(keyword in stripped for keyword in keywords)`. */
  predicate AnyIn(keywords: seq<string>, s: string) {
    exists k :: 0 <= k < |keywords| && Contains(s, keywords[k])
  }

  const GIT_KEYWORDS: seq<string> := ["git ", "gh ", "gst", "gco"]
  const PACKAGE_KEYWORDS: seq<string> := ["pacman", "paru", "yay", "makepkg"]
  const SYSTEM_KEYWORDS: seq<string> := ["systemd", "journal", "service"]

  /** The section a code line asks for, testing git, then package, then system keywords. */
  function Kind(stripped: string): (r: Option<string>)
    ensures r == Some("50-git") <==> AnyIn(GIT_KEYWORDS, stripped)
    ensures r == Some("30-package") <==> !AnyIn(GIT_KEYWORDS, stripped) && AnyIn(PACKAGE_KEYWORDS, stripped)
    ensures r == Some("20-system") <==>
      !AnyIn(GIT_KEYWORDS, stripped) && !AnyIn(PACKAGE_KEYWORDS, stripped) && AnyIn(SYSTEM_KEYWORDS, stripped)
    ensures r.None? <==> !AnyIn(GIT_KEYWORDS, stripped) && !AnyIn(PACKAGE_KEYWORDS, stripped) && !AnyIn(SYSTEM_KEYWORDS, stripped)
  {
    if AnyIn(GIT_KEYWORDS, stripped) then Some("50-git")
    else if AnyIn(PACKAGE_KEYWORDS, stripped) then Some("30-package")
    else if AnyIn(SYSTEM_KEYWORDS, stripped) then Some("20-system")
    else None
  }

  /** The section a line switches to, if any: a blank or comment line never switches, a code
      line switches to the section its keywords name. */
  function Switch(line: string): (r: Option<string>)
    ensures Strip(line) == "" || StartsWith(Strip(line), "#") ==> r.None?
  {
    var stripped := Strip(line);
    if stripped == "" || StartsWith(stripped, "#") then None else Kind(stripped)
  }

  /** The switch of every line. */
  function Switches(lines: seq<string>): (sw: seq<Option<string>>)
    ensures |sw| == |lines| && forall i :: 0 <= i < |lines| ==> sw[i] == Switch(lines[i])
  {
    seq(|lines|, i requires 0 <= i < |lines| => Switch(lines[i]))
  }

  /** The state of the heuristic loop. */
  datatype HeurScan = HeurScan(sections: Dict<string, Section>, content: seq<string>, name: string, start: nat)

  /** A section the heuristics record: the lines from `start` to `end`. */
  function Recorded(name: string, start: int, end: int, content: seq<string>): Section {
    Section(name, start, end, 0, [], "always", content)
  }

  /** Line `i` of the heuristic loop, switching to `to` if anything: the open section is
      recorded when the line switches to another one and it holds any lines. */
  function HeurNext(st: HeurScan, line: string, to: Option<string>, i: nat): (r: HeurScan)
    requires Valid(st.sections)
    ensures Valid(r.sections)
  {
    if to.Some? && to.value != st.name then
      var secs := if st.content != [] then Put(st.sections, st.name, Recorded(st.name, st.start, i - 1, st.content)) else st.sections;
      HeurScan(secs, [line], to.value, i)
    else st.(content := st.content + [line])
  }

  /** The heuristic loop after its first `i` lines, `sw` holding the switch of each line. */
  function HeurTo(lines: seq<string>, sw: seq<Option<string>>, i: nat): (st: HeurScan)
    requires i <= |lines| == |sw|
    ensures Valid(st.sections)
  {
    if i == 0 then HeurScan(Empty(), [], "00-core", 0)
    else HeurNext(HeurTo(lines, sw, i - 1), lines[i - 1], sw[i - 1], i - 1)
  }

  /** The sections with the open one recorded at the end, when it holds any lines. */
  function HeurClose(lines: seq<string>, st: HeurScan): (d: Dict<string, Section>)
    requires Valid(st.sections)
    ensures Valid(d)
  {
    if st.content != [] then Put(st.sections, st.name, Recorded(st.name, st.start, |lines| - 1, st.content))
    else st.sections
  }

  /** `analyze_by_content_heuristics`. */
  function Heuristic(lines: seq<string>): (d: Dict<string, Section>)
    ensures Valid(d)
  {
    HeurClose(lines, HeurTo(lines, Switches(lines), |lines|))
  }

  /** A recorded heuristic section: non-empty, priority 0, no depends, always loaded, its
      content the lines from its start to its end. */
  ghost predicate HeurShape(lines: seq<string>, s: Section) {
    && s.priority == 0 && s.depends == [] && s.condition == "always"
    && 0 <= s.start <= s.end < |lines|
    && s.content == lines[s.start..s.end + 1]
  }

  /** The recorded sections are disjoint slices, under their own names, before `before`. */
  ghost predicate RecordedOk(lines: seq<string>, d: Dict<string, Section>, before: int) {
    && (forall n :: n in d.at ==> HeurShape(lines, d.at[n]) && d.at[n].name == n && d.at[n].end < before)
    && (forall n, m :: n in d.at && m in d.at && n != m ==> d.at[n].end < d.at[m].start || d.at[m].end < d.at[n].start)
  }

  /** What the heuristic loop knows after `i` lines: every line since `start` is in the
      open content, and the recorded sections are disjoint slices before it. */
  ghost predicate HeurInv(lines: seq<string>, i: nat, st: HeurScan)
    requires i <= |lines|
  {
    st.start <= i && st.content == lines[st.start..i] && RecordedOk(lines, st.sections, st.start)
  }

  /** Recording the open section, when it holds lines up to `end`, keeps the recorded
      sections disjoint slices. */
  lemma RecordOk(lines: seq<string>, st: HeurScan, end: nat)
    requires end <= |lines| && HeurInv(lines, end, st) && Valid(st.sections)
    ensures st.content != [] ==> RecordedOk(lines, Put(st.sections, st.name, Recorded(st.name, st.start, end - 1, st.content)), end)
  {
    if st.content != [] {
      var was := st.sections.at;
      var rec := Recorded(st.name, st.start, end - 1, st.content);
      var at := Put(st.sections, st.name, rec).at;
      assert at == was[st.name := rec];
      assert HeurShape(lines, rec);
      forall n | n in at
        ensures HeurShape(lines, at[n]) && at[n].name == n && at[n].end < end
      {
        if n != st.name {
          assert at[n] == was[n];
        }
      }
      forall n, m | n in at && m in at && n != m
        ensures at[n].end < at[m].start || at[m].end < at[n].start
      {
        if n == st.name {
          assert at[m] == was[m] && at[m].end < st.start;
        } else if m == st.name {
          assert at[n] == was[n] && at[n].end < st.start;
        } else {
          assert at[n] == was[n] && at[m] == was[m];
        }
      }
    }
  }

  /** One line of the heuristic loop keeps what it knows. */
  lemma HeurNextOk(lines: seq<string>, i: nat, st: HeurScan, to: Option<string>)
    requires i < |lines| && HeurInv(lines, i, st) && Valid(st.sections)
    ensures HeurInv(lines, i + 1, HeurNext(st, lines[i], to, i))
  {
    if to.Some? && to.value != st.name {
      RecordOk(lines, st, i);
      assert [lines[i]] == lines[i..i + 1];
    } else {
      assert lines[st.start..i + 1] == lines[st.start..i] + [lines[i]];
    }
  }

  lemma {:induction false} HeurToInv(lines: seq<string>, sw: seq<Option<string>>, i: nat)
    requires i <= |lines| == |sw|
    ensures HeurInv(lines, i, HeurTo(lines, sw, i))
    decreases i
  {
    if i > 0 {
      var st := HeurTo(lines, sw, i - 1);
      HeurToInv(lines, sw, i - 1);
      HeurNextOk(lines, i - 1, st, sw[i - 1]);
      assert HeurTo(lines, sw, i) == HeurNext(st, lines[i - 1], sw[i - 1], i - 1);
    }
  }

  /** Every heuristic section has priority 0, no depends and condition `always`, holds
      exactly the lines from its start to its end, at least one, and no two overlap. */
  lemma HeuristicSpec(lines: seq<string>)
    ensures RecordedOk(lines, Heuristic(lines), |lines|)
  {
    var sw := Switches(lines);
    HeurToInv(lines, sw, |lines|);
    RecordOk(lines, HeurTo(lines, sw, |lines|), |lines|);
  }

  /** A line that does not switch joins the open section; one that switches opens the
      section it names, from that line on. */
  lemma HeurSwitching(lines: seq<string>, i: nat)
    requires i < |lines|
    ensures var sw := Switches(lines);
      var st, r := HeurTo(lines, sw, i), HeurTo(lines, sw, i + 1);
      && (r.name != st.name <==> Switch(lines[i]).Some? && Switch(lines[i]).value != st.name)
      && (r.name == st.name ==> r.start == st.start && r.content == st.content + [lines[i]])
      && (r.name != st.name ==> r.name == Switch(lines[i]).value && r.start == i && r.content == [lines[i]])
  {
  }

  // ---------------------------------------------------------------- the whole analysis

  /** `analyze_aliases_file` on the lines of the file. */
  function Analyze(lines: seq<string>, pats: seq<Rule>): (d: Dict<string, Section>)
    ensures Valid(d)
  {
    var d := HeaderSections(lines, pats);
    if d.at == map[] then Heuristic(lines) else d
  }

  /** With no header the heuristic sections are the result; with one, the header sections. */
  lemma AnalyzeFallsBack(lines: seq<string>, pats: seq<Rule>)
    ensures (forall h :: 0 <= h < |lines| ==> HeadOf(lines[h], pats).None?) ==> Analyze(lines, pats) == Heuristic(lines)
    ensures (exists h :: 0 <= h < |lines| && HeadOf(lines[h], pats).Some?) ==> Analyze(lines, pats) == HeaderSections(lines, pats)
  {
    HeaderSectionsSpec(lines, pats);
  }

  /** `analyze_aliases_file`: the header loop, then the final section, then the fallback. */
  method AnalyzeAliasesFile(lines: seq<string>, pats: seq<Rule>) returns (sections: Dict<string, Section>)
    ensures sections == Analyze(lines, pats)
  {
    var current, sectionStart;
    current, sectionStart, sections := ScanHeaders(lines, pats);
    ghost var st := HeaderScan(current, sectionStart, sections);
    if current.Some? {
      var c := current.value;
      assert lines[sectionStart..] == lines[sectionStart..|lines|];
      sections := Put(sections, c.name, Section(c.name, sectionStart, |lines| - 1, c.priority, c.depends, c.condition, lines[sectionStart..]));
    }
    assert sections == HeaderSections(lines, pats) by {
      assert sections == Close(st, lines, |lines|);
    }
    if sections.at == map[] {
      sections := AnalyzeByContentHeuristics(lines);
    }
  }

  /** The `while` loop of `analyze_aliases_file`: at each header the open section is
      closed and the header's section opened. */
  method ScanHeaders(lines: seq<string>, pats: seq<Rule>) returns (current: Option<Rule>, sectionStart: nat, sections: Dict<string, Section>)
    ensures sectionStart <= |lines| && HeaderScan(current, sectionStart, sections) == ScanTo(lines, Heads(lines, pats), |lines|)
  {
    ghost var hs := Heads(lines, pats);
    sections := Empty();
    current := None;
    sectionStart := 0;
    var i := 0;
    while i < |lines|
      invariant 0 <= i <= |lines|
      invariant HeaderScan(current, sectionStart, sections) == ScanTo(lines, hs, i)
    {
      var r := HeaderRule(lines, i, pats);
      current, sectionStart, sections := HeaderLine(lines, i, r, current, sectionStart, sections);
      i := i + 1;
    }
  }

  /** The header test of the loop for line `i`: the stripped line starts with `#` and the
      first rule whose pattern matches it. */
  method HeaderRule(lines: seq<string>, i: nat, pats: seq<Rule>) returns (r: Option<Rule>)
    requires i < |lines|
    ensures r == Heads(lines, pats)[i]
  {
    var line := Strip(lines[i]);
    r := None;
    if StartsWith(line, "#") {
      r := FindRule(pats, line);
    }
  }

  /** The body of the loop at line `i` with header rule `r`: at a header the open section is
      stored and the header's section opened. */
  method HeaderLine(lines: seq<string>, i: nat, r: Option<Rule>, current: Option<Rule>, sectionStart: nat, sections: Dict<string, Section>)
    returns (current': Option<Rule>, sectionStart': nat, sections': Dict<string, Section>)
    requires Valid(sections) && sectionStart <= i <= |lines|
    ensures HeaderScan(current', sectionStart', sections') == ScanNext(HeaderScan(current, sectionStart, sections), lines, r, i)
  {
    current', sectionStart', sections' := current, sectionStart, sections;
    if r.Some? {
      if current.Some? {
        var c := current.value;
        sections' := Put(sections, c.name, Section(c.name, sectionStart, i - 1, c.priority, c.depends, c.condition, lines[sectionStart..i]));
      }
      current' := r;
      sectionStart' := i;
    }
  }

  /** `analyze_by_content_heuristics`: the loop over the lines, then the final section. */
  method AnalyzeByContentHeuristics(lines: seq<string>) returns (sections: Dict<string, Section>)
    ensures sections == Heuristic(lines)
  {
    ghost var sw := Switches(lines);
    sections := Empty();
    var content: seq<string> := [];
    var name := "00-core";
    var startLine: nat := 0;
    for i := 0 to |lines|
      invariant HeurScan(sections, content, name, startLine) == HeurTo(lines, sw, i)
    {
      sections, content, name, startLine := HeuristicLine(sections, content, name, startLine, lines[i], i);
    }
    sections := HeurClose(lines, HeurScan(sections, content, name, startLine));
  }

  /** The body of the heuristic loop for `line`, line `i`: a blank or comment line joins
      the open section; a code line whose keywords name another section closes the open
      one, recording it when it holds lines, and opens the new one. */
  method HeuristicLine(sections: Dict<string, Section>, content: seq<string>, name: string, startLine: nat, line: string, i: nat)
    returns (sections': Dict<string, Section>, content': seq<string>, name': string, startLine': nat)
    requires Valid(sections)
    ensures HeurScan(sections', content', name', startLine') == HeurNext(HeurScan(sections, content, name, startLine), line, Switch(line), i)
  {
    sections', content', name', startLine' := sections, content, name, startLine;
    var stripped := Strip(line);
    if stripped == "" || StartsWith(stripped, "#") {
      content' := content' + [line];
      return;
    }
    var kind := Kind(stripped);
    if kind.Some? && kind.value != name' {
      if content' != [] {
        sections' := Put(sections', name', Recorded(name', startLine', i - 1, content'));
      }
      name' := kind.value;
      content' := [];
      startLine' := i;
    }
    content' := content' + [line];
  }

  // ---------------------------------------------------------------- the report

  /** The sections in dict order, as `sections.items()` yields them. */
  function Items(d: Dict<string, Section>): (r: seq<Section>)
    requires Valid(d)
    ensures |r| == |d.keys| && forall i :: 0 <= i < |r| ==> r[i] == d.at[d.keys[i]]
  {
    seq(|d.keys|, i requires 0 <= i < |d.keys| => d.at[d.keys[i]])
  }

  function PriorityKey(s: Section): Ext {
    Fin(s.priority)
  }

  /** The order `main` lists the sections in: `sorted(..., key=priority)`. */
  function Listing(d: Dict<string, Section>): seq<Section>
    requires Valid(d)
  {
    SortBy(Items(d), PriorityKey)
  }

  /** The listing holds every section once, by ascending priority, and sections of equal
      priority keep their dict order. */
  lemma ListingSpec(d: Dict<string, Section>, k: Ext)
    requires Valid(d)
    ensures SortedBy(Listing(d), PriorityKey) && multiset(Listing(d)) == multiset(Items(d))
    ensures Filter(Listing(d), KeyIs(PriorityKey, k)) == Filter(Items(d), KeyIs(PriorityKey, k))
  {
    SortBySorted(Items(d), PriorityKey);
    SortByStable(Items(d), PriorityKey, k);
  }

  lemma FromHeaderCount(lines: seq<string>, hs: seq<Option<Rule>>, s: Section)
    requires |lines| == |hs| && FromHeader(lines, hs, s)
    ensures |s.content| == s.end - s.start + 1 >= 1
  {
  }

  /** Every section a header opens holds at least its header line. */
  lemma HeaderLineCounts(lines: seq<string>, pats: seq<Rule>)
    ensures var d := HeaderSections(lines, pats);
      forall n :: n in d.at ==> |d.at[n].content| == d.at[n].end - d.at[n].start + 1 >= 1
  {
    var d := HeaderSections(lines, pats);
    var hs := Heads(lines, pats);
    HeaderSectionsSpec(lines, pats);
    forall n | n in d.at
      ensures |d.at[n].content| == d.at[n].end - d.at[n].start + 1 >= 1
    {
      FromHeaderCount(lines, hs, d.at[n]);
    }
  }

  /** The line count saved in the JSON, `len(content)`, and the one printed,
      `end_line - start_line + 1`, agree for every section found. */
  lemma LineCountsAgree(lines: seq<string>, pats: seq<Rule>)
    ensures var d := Analyze(lines, pats);
      forall n :: n in d.at ==> |d.at[n].content| == d.at[n].end - d.at[n].start + 1 >= 1
  {
    if HeaderSections(lines, pats).at == map[] {
      HeuristicSpec(lines);
    } else {
      HeaderLineCounts(lines, pats);
    }
  }
}
