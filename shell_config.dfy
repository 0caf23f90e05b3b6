/** analyze_shell_config.py: the alias and function definitions of `.aliases` and `.zshrc`,
    the duplicates between the two files, the hard-coded paths in them and the report built
    from these. The regular expressions become small recognisers, each proved equal to the
    decomposition the expression describes. File reading, JSON output and printing are
    left out; the files arrive as their text. */
module ShellConfig {
  import opened PyNum
  import opened PySort
  import opened PyStr
  import opened PyDict

  // ---------------------------------------------------------------- scanning helpers

  /** The first index at or after `from` holding `c`, or `|s|` when there is none. */
  function IndexFrom(s: string, c: char, from: nat): (k: nat)
    requires from <= |s|
    ensures from <= k <= |s| && (k < |s| ==> s[k] == c)
    ensures forall j :: from <= j < k ==> s[j] != c
    decreases |s| - from
  {
    if from == |s| || s[from] == c then from else IndexFrom(s, c, from + 1)
  }

  /** The end of the run of whitespace starting at `from`: what a greedy `\s*` consumes. */
  function SpaceEnd(s: string, from: nat): (k: nat)
    requires from <= |s|
    ensures from <= k <= |s| && (k < |s| ==> !IsSpace(s[k]))
    ensures forall j :: from <= j < k ==> IsSpace(s[j])
    decreases |s| - from
  {
    if from == |s| || !IsSpace(s[from]) then from else SpaceEnd(s, from + 1)
  }

  /** Removing trailing whitespace from a text with one more character in front. */
  lemma {:induction false} RStripCons(c: char, t: string)
    ensures RStrip([c] + t) == if RStrip(t) == [] then (if IsSpace(c) then [] else [c]) else [c] + RStrip(t)
    decreases |t|
  {
    var s := [c] + t;
    if t == [] {
      assert s == [c];
      assert s[..0] == [];
    } else {
      assert s[|s| - 1] == t[|t| - 1];
      assert s[..|s| - 1] == [c] + t[..|t| - 1];
      RStripCons(c, t[..|t| - 1]);
    }
  }

  /** Leading whitespace does not change what `strip()` leaves. */
  lemma {:induction false} StripSpaces(w: string, t: string)
    requires forall j :: 0 <= j < |w| ==> IsSpace(w[j])
    ensures Strip(w + t) == Strip(t)
    decreases |w|
  {
    if w != [] {
      var c := w[0];
      assert w + t == [c] + (w[1..] + t);
      StripSpaces(w[1..], t);
      var u := w[1..] + t;
      RStripCons(c, u);
      assert Strip(w + t) == LStrip(RStrip([c] + u));
      assert Strip(u) == LStrip(RStrip(u));
      if RStrip(u) != [] {
        var r := [c] + RStrip(u);
        assert r[0] == c && r[1..] == RStrip(u);
        assert LStrip(r) == LStrip(RStrip(u));
      } else {
        assert RStrip([c] + u) == [];
      }
    } else {
      assert w + t == t;
    }
  }

  // ---------------------------------------------------------------- alias definitions

  /** An alias definition: the two stripped groups of the match. */
  datatype AliasDef = AliasDef(name: string, value: string)

  /** `re.match(r'alias\s+([^=]+)=(.+)', line)` with both groups stripped. The name group
      runs to the first `=` after the whitespace and must hold a character, so that `=`
      is at index 7 or later; the value group is the rest of the line up to a newline,
      and must hold a character too. */
  function AliasMatch(line: string): (r: Option<AliasDef>) {
    if |line| < 6 || line[..5] != "alias" || !IsSpace(line[5]) then None
    else
      var q := IndexFrom(line, '=', 5);
      if q < 7 || q == |line| then None
      else
        var e := IndexFrom(line, '\n', q + 1);
        if e == q + 1 then None
        else Some(AliasDef(Strip(line[5..q]), Strip(line[q + 1..e])))
  }

  /** The expression `alias\s+([^=]+)=(.+)` matches the start of `line` with `\s+` over
      `line[5..s]`, the name group `line[s..q]` and the value group `line[q + 1..e]`. */
  ghost predicate AliasRegex(line: string, s: int, q: int, e: int) {
    6 <= s < q && q + 1 < e <= |line| && line[..5] == "alias"
    && (forall j :: 5 <= j < s ==> IsSpace(line[j]))
    && (forall j :: s <= j < q ==> line[j] != '=')
    && line[q] == '='
    && (forall j :: q < j < e ==> line[j] != '\n')
    && (e == |line| || line[e] == '\n')
  }

  /** The recogniser accepts exactly the lines the expression matches, and whichever way the
      expression splits the line, the stripped groups are the ones the recogniser returns. */
  lemma AliasMatchSpec(line: string)
    ensures AliasMatch(line).Some? <==> exists s, q, e :: AliasRegex(line, s, q, e)
    ensures forall s, q, e :: AliasRegex(line, s, q, e) ==>
      AliasMatch(line) == Some(AliasDef(Strip(line[s..q]), Strip(line[q + 1..e])))
  {
    if AliasMatch(line).Some? {
      var q := IndexFrom(line, '=', 5);
      var e := IndexFrom(line, '\n', q + 1);
      assert AliasRegex(line, 6, q, e);
    }
    forall s, q, e | AliasRegex(line, s, q, e)
      ensures AliasMatch(line) == Some(AliasDef(Strip(line[s..q]), Strip(line[q + 1..e])))
    {
      AliasGroups(line, s, q, e);
    }
  }

  /** Any split the expression makes puts the `=` and the end of the value where the
      recogniser looks for them. */
  lemma AliasGroups(line: string, s: int, q: int, e: int)
    requires AliasRegex(line, s, q, e)
    ensures AliasMatch(line) == Some(AliasDef(Strip(line[s..q]), Strip(line[q + 1..e])))
  {
    IndexAt(line, '=', 5, q);
    IndexAt(line, '\n', q + 1, e);
    AliasName(line, s, q);
    AliasMatchAt(line, q, e);
  }

  /** The recogniser's answer once the `=` and the end of the value are known. */
  lemma AliasMatchAt(line: string, q: nat, e: nat)
    requires 7 <= q < e <= |line| && q + 1 != e && line[..5] == "alias" && IsSpace(line[5])
    requires IndexFrom(line, '=', 5) == q && IndexFrom(line, '\n', q + 1) == e
    ensures AliasMatch(line) == Some(AliasDef(Strip(line[5..q]), Strip(line[q + 1..e])))
  {
  }

  /** The first `c` at or after `from` is the one at `k` when none comes before it. */
  lemma IndexAt(s: string, c: char, from: nat, k: nat)
    requires from <= k <= |s| && (k < |s| ==> s[k] == c)
    requires forall j :: from <= j < k ==> s[j] != c
    ensures IndexFrom(s, c, from) == k
  {
  }

  /** The whitespace `\s+` consumes does not reach the stripped name group. */
  lemma AliasName(line: string, s: int, q: int)
    requires 5 <= s <= q <= |line| && forall j :: 5 <= j < s ==> IsSpace(line[j])
    ensures Strip(line[5..q]) == Strip(line[s..q])
  {
    assert line[5..q] == line[5..s] + line[s..q];
    StripSpaces(line[5..s], line[s..q]);
  }

  // ---------------------------------------------------------------- function definitions

  predicate IdentStart(c: char) {
    'a' <= c <= 'z' || 'A' <= c <= 'Z' || c == '_'
  }

  predicate IdentChar(c: char) {
    IdentStart(c) || IsDigit(c) || c == '-'
  }

  /** The end of the run of identifier characters starting at `from`. */
  function IdentEnd(s: string, from: nat): (k: nat)
    requires from <= |s|
    ensures from <= k <= |s| && (k < |s| ==> !IdentChar(s[k]))
    ensures forall j :: from <= j < k ==> IdentChar(s[j])
    decreases |s| - from
  {
    if from == |s| || !IdentChar(s[from]) then from else IdentEnd(s, from + 1)
  }

  /** `re.match(r'([a-zA-Z_][a-zA-Z0-9_-]*)\s*\(\s*\)\s*\{', line).group(1)`: the greedy
      identifier, then `(`, `)` and `{` with any whitespace before each. */
  function FuncMatch(line: string): (r: Option<string>) {
    if line == [] || !IdentStart(line[0]) then None
    else
      var n := IdentEnd(line, 1);
      var a := SpaceEnd(line, n);
      if a == |line| || line[a] != '(' then None
      else
        var b := SpaceEnd(line, a + 1);
        if b == |line| || line[b] != ')' then None
        else
          var c := SpaceEnd(line, b + 1);
          if c == |line| || line[c] != '{' then None
          else Some(line[..n])
  }

  /** All characters of `s[i..j]` are whitespace. */
  ghost predicate Spaces(s: string, i: int, j: int)
    requires 0 <= i <= j <= |s|
  {
    forall k :: i <= k < j ==> IsSpace(s[k])
  }

  /** The expression matches the start of `line` with the name group `line[..n]` and the
      `(`, `)` and `{` at `a`, `b` and `c`. */
  ghost predicate FuncRegex(line: string, n: int, a: int, b: int, c: int) {
    1 <= n <= a < b < c < |line| && IdentStart(line[0])
    && (forall k :: 1 <= k < n ==> IdentChar(line[k]))
    && Spaces(line, n, a) && line[a] == '('
    && Spaces(line, a + 1, b) && line[b] == ')'
    && Spaces(line, b + 1, c) && line[c] == '{'
  }

  /** The recogniser finds a function name exactly when the expression matches, and the name
      is the expression's group, however it splits the line. */
  lemma FuncMatchSpec(line: string)
    ensures FuncMatch(line).Some? <==> exists n, a, b, c :: FuncRegex(line, n, a, b, c)
    ensures forall n, a, b, c :: FuncRegex(line, n, a, b, c) ==> FuncMatch(line) == Some(line[..n])
  {
    if FuncMatch(line).Some? {
      var n := IdentEnd(line, 1);
      var a := SpaceEnd(line, n);
      var b := SpaceEnd(line, a + 1);
      var c := SpaceEnd(line, b + 1);
      assert FuncRegex(line, n, a, b, c);
    }
    forall n, a, b, c | FuncRegex(line, n, a, b, c) ensures FuncMatch(line) == Some(line[..n]) {
      FuncGroups(line, n, a, b, c);
    }
  }

  /** Any split the expression makes ends the name and places the brackets where the
      recogniser looks for them. */
  lemma FuncGroups(line: string, n: int, a: int, b: int, c: int)
    requires FuncRegex(line, n, a, b, c)
    ensures FuncMatch(line) == Some(line[..n])
  {
    assert !IdentChar(line[n]) by {
      if n < a {
        assert IsSpace(line[n]);
      }
    }
    assert IdentEnd(line, 1) == n;
    SpaceRun(line, n, a);
    SpaceRun(line, a + 1, b);
    SpaceRun(line, b + 1, c);
  }

  /** A whitespace run followed by a character that is not whitespace is what `\s*`
      consumes. */
  lemma SpaceRun(s: string, i: int, j: int)
    requires 0 <= i <= j < |s| && Spaces(s, i, j) && !IsSpace(s[j])
    ensures SpaceEnd(s, i) == j
  {
    var k := SpaceEnd(s, i);
  }

  // ---------------------------------------------------------------- extract_aliases

  /** The entry `extract_aliases` records for an alias: its value, its line number counted
      from 1 and the stripped line. */
  datatype AliasInfo = AliasInfo(value: string, line: nat, raw: string)

  /** The entry `extract_aliases` records for a function. */
  datatype FuncInfo = FuncInfo(line: nat, raw: string)

  /** A stripped line `extract_aliases` passes over: an empty line or a comment. */
  predicate Skipped(t: string) {
    t == [] || StartsWith(t, "#")
  }

  /** The alias line `i` (counted from 0) of `lines` defines, if any. */
  function AliasAt(lines: seq<string>, i: nat): Option<AliasDef>
    requires i < |lines|
  {
    var t := Strip(lines[i]);
    if Skipped(t) then None else AliasMatch(t)
  }

  /** The function line `i` (counted from 0) of `lines` defines, if any. */
  function FuncAt(lines: seq<string>, i: nat): Option<string>
    requires i < |lines|
  {
    var t := Strip(lines[i]);
    if Skipped(t) then None else FuncMatch(t)
  }

  /** The entry line `i` (counted from 0) adds to the `aliases` dict, if any. */
  function AliasEntry(lines: seq<string>, i: nat): Option<(string, AliasInfo)>
    requires i < |lines|
  {
    match AliasAt(lines, i)
    case None => None
    case Some(a) => Some((a.name, AliasInfo(a.value, i + 1, Strip(lines[i]))))
  }

  /** The entry line `i` (counted from 0) adds to the `functions` dict, if any. */
  function FuncEntry(lines: seq<string>, i: nat): Option<(string, FuncInfo)>
    requires i < |lines|
  {
    match FuncAt(lines, i)
    case None => None
    case Some(f) => Some((f, FuncInfo(i + 1, Strip(lines[i]))))
  }

  function AliasEntries(lines: seq<string>): (es: seq<Option<(string, AliasInfo)>>)
    ensures |es| == |lines| && forall i :: 0 <= i < |lines| ==> es[i] == AliasEntry(lines, i)
  {
    seq(|lines|, i requires 0 <= i < |lines| => AliasEntry(lines, i))
  }

  function FuncEntries(lines: seq<string>): (es: seq<Option<(string, FuncInfo)>>)
    ensures |es| == |lines| && forall i :: 0 <= i < |lines| ==> es[i] == FuncEntry(lines, i)
  {
    seq(|lines|, i requires 0 <= i < |lines| => FuncEntry(lines, i))
  }

  /** The dict `d[k] = v` fills with the entries of `es`, in order. */
  function Fill<V>(es: seq<Option<(string, V)>>): (d: Dict<string, V>)
    ensures Valid(d)
  {
    if es == [] then Empty()
    else
      var d := Fill(es[..|es| - 1]);
      match es[|es| - 1]
      case None => d
      case Some(e) => Put(d, e.0, e.1)
  }

  /** Entry `i` of `es` is for the key `k`. */
  predicate For<V>(es: seq<Option<(string, V)>>, i: int, k: string)
    requires 0 <= i < |es|
  {
    es[i].Some? && es[i].value.0 == k
  }

  /** One more entry fills one more key. */
  lemma FillStep<V>(es: seq<Option<(string, V)>>, i: nat)
    requires i < |es|
    ensures Fill(es[..i + 1]) == match es[i] case None => Fill(es[..i]) case Some(e) => Put(Fill(es[..i]), e.0, e.1)
  {
    assert es[..i + 1][..i] == es[..i];
  }

  /** The entries of the dict `Fill(es)`, built as a plain map. */
  function FillMap<V>(es: seq<Option<(string, V)>>): map<string, V>
    decreases |es|
  {
    if es == [] then map[]
    else
      var m := FillMap(es[..|es| - 1]);
      match es[|es| - 1]
      case None => m
      case Some(e) => m[e.0 := e.1]
  }

  /** The entries of `Fill(es)` are the plain map's. */
  lemma {:induction false} FillEntries<V>(es: seq<Option<(string, V)>>)
    ensures Fill(es).at == FillMap(es)
    decreases |es|
  {
    if es != [] {
      FillEntries(es[..|es| - 1]);
    }
  }

  /** A key is filled exactly when some entry is for it, and then it holds the value of the
      last such entry. */
  lemma FillLastWins<V>(es: seq<Option<(string, V)>>, k: string)
    ensures k in Fill(es).at <==> exists i :: 0 <= i < |es| && For(es, i, k)
    ensures k in Fill(es).at ==> exists i :: (0 <= i < |es| && es[i] == Some((k, Fill(es).at[k]))
      && forall j :: i < j < |es| ==> !For(es, j, k))
  {
    FillEntries(es);
    FillHas(es, k);
    FillLast(es, k);
  }

  /** A key is filled exactly when some entry is for it. */
  lemma {:induction false} FillHas<V>(es: seq<Option<(string, V)>>, k: string)
    ensures k in FillMap(es) <==> exists i :: 0 <= i < |es| && For(es, i, k)
    decreases |es|
  {
    if es != [] {
      var n := |es| - 1;
      var init := es[..n];
      FillHas(init, k);
      if !For(es, n, k) {
        assert k in FillMap(es) <==> k in FillMap(init);
        if i :| 0 <= i < |es| && For(es, i, k) {
          assert For(init, i, k);
        }
        if k in FillMap(init) {
          var i :| 0 <= i < n && For(init, i, k);
          assert For(es, i, k);
        }
      }
    }
  }

  /** A filled key holds the value of the last entry for it. */
  lemma {:induction false} FillLast<V>(es: seq<Option<(string, V)>>, k: string)
    ensures k in FillMap(es) ==> exists i :: (0 <= i < |es| && es[i] == Some((k, FillMap(es)[k]))
      && forall j :: i < j < |es| ==> !For(es, j, k))
    decreases |es|
  {
    if es != [] {
      var n := |es| - 1;
      var init := es[..n];
      FillLast(init, k);
      if For(es, n, k) {
        assert es[n] == Some((k, FillMap(es)[k]));
      } else if k in FillMap(es) {
        assert k in FillMap(init) && FillMap(es)[k] == FillMap(init)[k];
        var i :| 0 <= i < n && init[i] == Some((k, FillMap(init)[k])) && forall j :: i < j < n ==> !For(init, j, k);
        assert es[i] == Some((k, FillMap(es)[k]));
        forall j | i < j < |es| ensures !For(es, j, k) {
          if j < n {
            assert !For(init, j, k);
          }
        }
      }
    }
  }

  /** The `aliases` dict `extract_aliases` returns for the lines of a file. */
  function Aliases(lines: seq<string>): (d: Dict<string, AliasInfo>) {
    Fill(AliasEntries(lines))
  }

  /** The `functions` dict `extract_aliases` returns for the lines of a file. */
  function Functions(lines: seq<string>): (d: Dict<string, FuncInfo>) {
    Fill(FuncEntries(lines))
  }

  /** Line `i` (counted from 0) defines the alias `k`. */
  predicate DefinesAlias(lines: seq<string>, i: nat, k: string)
    requires i < |lines|
  {
    AliasAt(lines, i).Some? && AliasAt(lines, i).value.name == k
  }

  /** Line `i` (counted from 0) defines the function `k`. */
  predicate DefinesFunc(lines: seq<string>, i: nat, k: string)
    requires i < |lines|
  {
    FuncAt(lines, i) == Some(k)
  }

  /** An alias is recorded exactly when some line defines it, and then with the value, the
      number (counted from 1) and the stripped text of the last line that does: a later
      definition in the same file overwrites an earlier one. Blank and comment lines define
      nothing. */
  lemma AliasesLastWins(lines: seq<string>, k: string)
    ensures k in Aliases(lines).at <==> exists i :: 0 <= i < |lines| && DefinesAlias(lines, i, k)
    ensures k in Aliases(lines).at ==> exists i :: (0 <= i < |lines| && DefinesAlias(lines, i, k)
      && !Skipped(Strip(lines[i]))
      && Aliases(lines).at[k] == AliasInfo(AliasAt(lines, i).value.value, i + 1, Strip(lines[i]))
      && forall j :: i < j < |lines| ==> !DefinesAlias(lines, j, k))
  {
    var es := AliasEntries(lines);
    FillLastWins(es, k);
    assert forall i :: 0 <= i < |lines| ==> (For(es, i, k) <==> DefinesAlias(lines, i, k));
  }

  /** A function is recorded exactly when some line defines it, and then with the number and
      the stripped text of the last line that does. */
  lemma FunctionsLastWins(lines: seq<string>, k: string)
    ensures k in Functions(lines).at <==> exists i :: 0 <= i < |lines| && DefinesFunc(lines, i, k)
    ensures k in Functions(lines).at ==> exists i :: (0 <= i < |lines| && DefinesFunc(lines, i, k)
      && !Skipped(Strip(lines[i]))
      && Functions(lines).at[k] == FuncInfo(i + 1, Strip(lines[i]))
      && forall j :: i < j < |lines| ==> !DefinesFunc(lines, j, k))
  {
    var es := FuncEntries(lines);
    FillLastWins(es, k);
    assert forall i :: 0 <= i < |lines| ==> (For(es, i, k) <==> DefinesFunc(lines, i, k));
  }

  /** `extract_aliases(file)` on the file's text, split at its newlines. */
  method ExtractAliases(content: string) returns (aliases: Dict<string, AliasInfo>, functions: Dict<string, FuncInfo>)
    ensures var lines := SplitOn(content, '\n');
      aliases == Aliases(lines) && functions == Functions(lines)
  {
    var lines := SplitOn(content, '\n');
    aliases := Dict([], map[]);
    functions := Dict([], map[]);
    for i := 0 to |lines|
      invariant aliases == Fill(AliasEntries(lines)[..i]) && functions == Fill(FuncEntries(lines)[..i])
    {
      FillStep(AliasEntries(lines), i);
      FillStep(FuncEntries(lines), i);
      var line := Strip(lines[i]);
      if line == [] || StartsWith(line, "#") {
        continue;
      }
      var am := AliasMatch(line);
      if am.Some? {
        aliases := Put(aliases, am.value.name, AliasInfo(am.value.value, i + 1, line));
      }
      var fm := FuncMatch(line);
      if fm.Some? {
        functions := Put(functions, fm.value, FuncInfo(i + 1, line));
      }
    }
    assert AliasEntries(lines)[..|lines|] == AliasEntries(lines);
    assert FuncEntries(lines)[..|lines|] == FuncEntries(lines);
  }

  // ---------------------------------------------------------------- analyze_files: merging

  /** `f'{file}:{line}'`. */
  function LocStr(file: string, line: nat): string {
    file + ":" + NatStr(line)
  }

  /** An entry of `all_aliases`: the alias entry and the place it comes from. */
  datatype AliasRecord = AliasRecord(value: string, line: nat, raw: string, file: string)

  /** An entry of `all_functions`. */
  datatype FuncRecord = FuncRecord(line: nat, raw: string, file: string)

  /** A record of the `duplicates` list: the earlier place and the new one (and, for an
      alias, the earlier value and the new one). */
  datatype Duplicate =
    | AliasDuplicate(name: string, files: seq<string>, values: seq<string>)
    | FunctionDuplicate(name: string, files: seq<string>)

  /** `{**info, 'file': f'{file}:{info["line"]}'}` for an alias. */
  function AliasRecordOf(info: AliasInfo, file: string): AliasRecord {
    AliasRecord(info.value, info.line, info.raw, LocStr(file, info.line))
  }

  /** `{**info, 'file': f'{file}:{info["line"]}'}` for a function. */
  function FuncRecordOf(info: FuncInfo, file: string): FuncRecord {
    FuncRecord(info.line, info.raw, LocStr(file, info.line))
  }

  /** The duplicate record for the alias `name`, recorded earlier as `earlier` and met again
      in `file`. */
  function AliasDup(name: string, earlier: AliasRecord, info: AliasInfo, file: string): Duplicate {
    AliasDuplicate(name, [earlier.file, LocStr(file, info.line)], [earlier.value, info.value])
  }

  /** The duplicate record for the function `name`, recorded earlier as `earlier` and met
      again in `file`. */
  function FuncDup(name: string, earlier: FuncRecord, info: FuncInfo, file: string): Duplicate {
    FunctionDuplicate(name, [earlier.file, LocStr(file, info.line)])
  }

  /** A `for name, info in src.items()` loop of `analyze_files` over the keys `keys`: a name
      already in `all` adds a duplicate record, a new one goes into `all`, located in
      `file`. */
  function Pass<V, E>(all: Dict<string, E>, src: map<string, V>, keys: seq<string>, file: string,
                      rec: (V, string) -> E, dup: (string, E, V, string) -> Duplicate): (r: (Dict<string, E>, seq<Duplicate>))
    requires forall k :: k in keys ==> k in src
    decreases |keys|
  {
    if keys == [] then (all, [])
    else
      var prev := Pass(all, src, keys[..|keys| - 1], file, rec, dup);
      var k := keys[|keys| - 1];
      if k in prev.0.at then (prev.0, prev.1 + [dup(k, prev.0.at[k], src[k], file)])
      else (Insert(prev.0, k, rec(src[k], file)), prev.1)
  }

  /** `d[k] = v` for a name `d` lacks: the name goes last. */
  function Insert<E>(d: Dict<string, E>, k: string, v: E): Dict<string, E> {
    Dict(d.keys + [k], d.at[k := v])
  }

  /** Inserting a name the dict lacks is `Put`. */
  lemma InsertIsPut<E>(d: Dict<string, E>, k: string, v: E)
    requires Valid(d) && k !in d.at
    ensures Insert(d, k, v) == Put(d, k, v)
  {
  }

  /** A pass leaves a well-formed dict. */
  lemma {:induction false} PassValid<V, E>(all: Dict<string, E>, src: map<string, V>, keys: seq<string>, file: string,
                                           rec: (V, string) -> E, dup: (string, E, V, string) -> Duplicate)
    requires Valid(all) && forall k :: k in keys ==> k in src
    ensures Valid(Pass(all, src, keys, file, rec, dup).0)
    decreases |keys|
  {
    if keys != [] {
      var init, k := keys[..|keys| - 1], keys[|keys| - 1];
      PassValid(all, src, init, file, rec, dup);
      var prev := Pass(all, src, init, file, rec, dup).0;
      if k !in prev.at {
        InsertIsPut(prev, k, rec(src[k], file));
      }
    }
  }

  /** The duplicates of a pass read off `all` as it was before the pass: one for each key
      of `keys` that was already there, in the order of `keys`. */
  function PassDups<V, E>(all: map<string, E>, src: map<string, V>, keys: seq<string>, file: string,
                          dup: (string, E, V, string) -> Duplicate): seq<Duplicate>
    requires forall k :: k in keys ==> k in src
    decreases |keys|
  {
    if keys == [] then []
    else
      var k := keys[|keys| - 1];
      PassDups(all, src, keys[..|keys| - 1], file, dup) + (if k in all then [dup(k, all[k], src[k], file)] else [])
  }

  /** `[k for k in keys if k not in m]`. */
  function Missing<E>(m: map<string, E>, keys: seq<string>): (r: seq<string>)
    ensures forall k :: k in r <==> k in keys && k !in m
    decreases |keys|
  {
    if keys == [] then []
    else
      var k := keys[|keys| - 1];
      assert keys == keys[..|keys| - 1] + [k];
      Missing(m, keys[..|keys| - 1]) + if k in m then [] else [k]
  }

  /** Two maps holding the same names among `keys` miss the same ones. */
  lemma {:induction false} MissingSame<E, F>(m: map<string, E>, n: map<string, F>, keys: seq<string>)
    requires forall k :: k in keys ==> (k in m <==> k in n)
    ensures Missing(m, keys) == Missing(n, keys)
    decreases |keys|
  {
    if keys != [] {
      MissingSame(m, n, keys[..|keys| - 1]);
    }
  }

  /** An empty map misses every name. */
  lemma {:induction false} MissingAll<E>(keys: seq<string>)
    ensures Missing<E>(map[], keys) == keys
    decreases |keys|
  {
    if keys != [] {
      MissingAll<E>(keys[..|keys| - 1]);
      assert keys == keys[..|keys| - 1] + [keys[|keys| - 1]];
    }
  }

  /** A pass over keys listed once each adds the new names after the old ones, in the order
      of `keys`, keeps every old entry, and records one duplicate for each name that was
      there before: no name is reported against a name the same pass added. */
  lemma PassSpec<V, E>(all: Dict<string, E>, src: map<string, V>, keys: seq<string>, file: string,
                       rec: (V, string) -> E, dup: (string, E, V, string) -> Duplicate)
    requires Valid(all) && Distinct(keys) && forall k :: k in keys ==> k in src
    ensures var r := Pass(all, src, keys, file, rec, dup);
      r.0.keys == all.keys + Missing(all.at, keys)
      && (forall k :: k in r.0.at <==> k in all.at || k in keys)
      && (forall k :: k in all.at ==> r.0.at[k] == all.at[k])
      && (forall k :: k in keys && k !in all.at ==> r.0.at[k] == rec(src[k], file))
      && r.1 == PassDups(all.at, src, keys, file, dup)
      && Valid(r.0)
  {
    PassEntries(all, src, keys, file, rec, dup);
    PassRecords(all, src, keys, file, rec, dup);
    PassValid(all, src, keys, file, rec, dup);
  }

  /** The dict a pass leaves. */
  lemma PassEntries<V, E>(all: Dict<string, E>, src: map<string, V>, keys: seq<string>, file: string,
                          rec: (V, string) -> E, dup: (string, E, V, string) -> Duplicate)
    requires Distinct(keys) && forall k :: k in keys ==> k in src
    ensures var r := Pass(all, src, keys, file, rec, dup).0;
      r.keys == all.keys + Missing(all.at, keys)
      && (forall k :: k in r.at <==> k in all.at || k in keys)
      && (forall k :: k in all.at ==> r.at[k] == all.at[k])
      && (forall k :: k in keys && k !in all.at ==> r.at[k] == rec(src[k], file))
  {
    PassKeys(all, src, keys, file, rec, dup);
    PassMembers(all, src, keys, file, rec, dup);
    PassKeeps(all, src, keys, file, rec, dup);
    PassAdds(all, src, keys, file, rec, dup);
  }

  /** A pass holds the old names and the names it visits, and no other. */
  lemma {:induction false} PassMembers<V, E>(all: Dict<string, E>, src: map<string, V>, keys: seq<string>, file: string,
                                             rec: (V, string) -> E, dup: (string, E, V, string) -> Duplicate)
    requires forall k :: k in keys ==> k in src
    ensures forall k :: k in Pass(all, src, keys, file, rec, dup).0.at <==> k in all.at || k in keys
    decreases |keys|
  {
    if keys != [] {
      var m := |keys| - 1;
      assert keys == keys[..m] + [keys[m]];
      PassMembers(all, src, keys[..m], file, rec, dup);
    }
  }

  /** A pass keeps every old entry. */
  lemma {:induction false} PassKeeps<V, E>(all: Dict<string, E>, src: map<string, V>, keys: seq<string>, file: string,
                                           rec: (V, string) -> E, dup: (string, E, V, string) -> Duplicate)
    requires forall k :: k in keys ==> k in src
    ensures var r := Pass(all, src, keys, file, rec, dup).0;
      forall k :: k in all.at ==> k in r.at && r.at[k] == all.at[k]
    decreases |keys|
  {
    if keys != [] {
      PassKeeps(all, src, keys[..|keys| - 1], file, rec, dup);
    }
  }

  /** A pass stores each name it visits that was not there before with its record. */
  lemma {:induction false} PassAdds<V, E>(all: Dict<string, E>, src: map<string, V>, keys: seq<string>, file: string,
                                          rec: (V, string) -> E, dup: (string, E, V, string) -> Duplicate)
    requires Distinct(keys) && forall k :: k in keys ==> k in src
    ensures var r := Pass(all, src, keys, file, rec, dup).0;
      forall k :: k in keys && k !in all.at ==> k in r.at && r.at[k] == rec(src[k], file)
    decreases |keys|
  {
    if keys != [] {
      var m := |keys| - 1;
      var init, k := keys[..m], keys[m];
      assert keys == init + [k];
      assert Distinct(init) && k !in init;
      PassAdds(all, src, init, file, rec, dup);
      PassMembers(all, src, init, file, rec, dup);
    }
  }

  /** A pass lists the new names after the old ones, in the order it visits them. */
  lemma {:induction false} PassKeys<V, E>(all: Dict<string, E>, src: map<string, V>, keys: seq<string>, file: string,
                                          rec: (V, string) -> E, dup: (string, E, V, string) -> Duplicate)
    requires Distinct(keys) && forall k :: k in keys ==> k in src
    ensures Pass(all, src, keys, file, rec, dup).0.keys == all.keys + Missing(all.at, keys)
    decreases |keys|
  {
    if keys == [] {
      assert all.keys + [] == all.keys;
    } else {
      var m := |keys| - 1;
      var init, k := keys[..m], keys[m];
      assert Distinct(init) && k !in init;
      PassKeys(all, src, init, file, rec, dup);
      PassMembers(all, src, init, file, rec, dup);
      if k !in Pass(all, src, init, file, rec, dup).0.at {
        assert Pass(all, src, keys, file, rec, dup).0.keys == (all.keys + Missing(all.at, init)) + [k];
      }
    }
  }

  /** The duplicates a pass records. */
  lemma {:induction false} PassRecords<V, E>(all: Dict<string, E>, src: map<string, V>, keys: seq<string>, file: string,
                                             rec: (V, string) -> E, dup: (string, E, V, string) -> Duplicate)
    requires Distinct(keys) && forall k :: k in keys ==> k in src
    ensures Pass(all, src, keys, file, rec, dup).1 == PassDups(all.at, src, keys, file, dup)
    decreases |keys|
  {
    if keys != [] {
      var m := |keys| - 1;
      var init := keys[..m];
      var k := keys[m];
      assert Distinct(init) && k !in init;
      PassRecords(all, src, init, file, rec, dup);
      PassEntries(all, src, init, file, rec, dup);
      var prev := Pass(all, src, init, file, rec, dup);
      if k in prev.0.at {
        assert prev.0.at[k] == all.at[k];
      }
    }
  }

  /** The records of the names of `m`, located in `file`. */
  function Located(m: map<string, AliasInfo>, file: string): map<string, AliasRecord> {
    map k | k in m :: AliasRecordOf(m[k], file)
  }

  /** The records of the function names of `m`, located in `file`. */
  function FuncLocated(m: map<string, FuncInfo>, file: string): map<string, FuncRecord> {
    map k | k in m :: FuncRecordOf(m[k], file)
  }

  /** `all_aliases` and the alias duplicates: the `.aliases` loop, then the `.zshrc` loop. */
  function AllAliases(aa: Dict<string, AliasInfo>, za: Dict<string, AliasInfo>): (r: (Dict<string, AliasRecord>, seq<Duplicate>))
    requires Valid(aa) && Valid(za)
  {
    var first := Pass(Empty(), aa.at, aa.keys, ".aliases", AliasRecordOf, AliasDup);
    var second := Pass(first.0, za.at, za.keys, ".zshrc", AliasRecordOf, AliasDup);
    (second.0, first.1 + second.1)
  }

  /** A pass against an empty dict records no duplicate. */
  lemma {:induction false} NoDupsAgainstNothing<V, E>(src: map<string, V>, keys: seq<string>, file: string,
                                                     dup: (string, E, V, string) -> Duplicate)
    requires forall k :: k in keys ==> k in src
    ensures PassDups(map[], src, keys, file, dup) == []
    decreases |keys|
  {
    if keys != [] {
      NoDupsAgainstNothing(src, keys[..|keys| - 1], file, dup);
    }
  }

  /** `all_aliases` keeps the first definition, taking `.aliases` before `.zshrc`: it lists
      the `.aliases` names, then the `.zshrc` names `.aliases` lacks. The `.aliases` loop
      never records a duplicate (its names are distinct); each `.zshrc` name already in
      `.aliases` records one, holding the `.aliases` place and value and the new ones. */
  lemma AllAliasesSpec(aa: Dict<string, AliasInfo>, za: Dict<string, AliasInfo>)
    requires Valid(aa) && Valid(za)
    ensures var r := AllAliases(aa, za);
      r.0.keys == aa.keys + Missing(aa.at, za.keys)
      && (forall k :: k in r.0.at <==> k in aa.at || k in za.at)
      && (forall k :: k in r.0.at ==> r.0.at[k] == if k in aa.at then AliasRecordOf(aa.at[k], ".aliases") else AliasRecordOf(za.at[k], ".zshrc"))
      && r.1 == PassDups(Located(aa.at, ".aliases"), za.at, za.keys, ".zshrc", AliasDup)
  {
    AllAliasKeys(aa, za);
    AllAliasValues(aa, za);
    AllAliasDups(aa, za);
  }

  /** The names of `all_aliases`: those of `.aliases`, then the new ones of `.zshrc`. */
  lemma AllAliasKeys(aa: Dict<string, AliasInfo>, za: Dict<string, AliasInfo>)
    requires Valid(aa) && Valid(za)
    ensures AllAliases(aa, za).0.keys == aa.keys + Missing(aa.at, za.keys)
  {
    var first := Pass(Empty(), aa.at, aa.keys, ".aliases", AliasRecordOf, AliasDup);
    FirstAliasKeys(aa);
    FirstAliasEntries(aa);
    PassKeys(first.0, za.at, za.keys, ".zshrc", AliasRecordOf, AliasDup);
    MissingSame(first.0.at, aa.at, za.keys);
  }

  /** The entries of `all_aliases`: the first definition of each name. */
  lemma AllAliasValues(aa: Dict<string, AliasInfo>, za: Dict<string, AliasInfo>)
    requires Valid(aa) && Valid(za)
    ensures var r := AllAliases(aa, za).0;
      (forall k :: k in r.at <==> k in aa.at || k in za.at)
      && (forall k :: k in r.at ==> r.at[k] == if k in aa.at then AliasRecordOf(aa.at[k], ".aliases") else AliasRecordOf(za.at[k], ".zshrc"))
  {
    var first := Pass(Empty(), aa.at, aa.keys, ".aliases", AliasRecordOf, AliasDup);
    FirstAliasEntries(aa);
    PassMembers(first.0, za.at, za.keys, ".zshrc", AliasRecordOf, AliasDup);
    PassKeeps(first.0, za.at, za.keys, ".zshrc", AliasRecordOf, AliasDup);
    PassAdds(first.0, za.at, za.keys, ".zshrc", AliasRecordOf, AliasDup);
  }

  /** The alias duplicates: those the `.zshrc` loop finds against `.aliases`. */
  lemma AllAliasDups(aa: Dict<string, AliasInfo>, za: Dict<string, AliasInfo>)
    requires Valid(aa) && Valid(za)
    ensures AllAliases(aa, za).1 == PassDups(Located(aa.at, ".aliases"), za.at, za.keys, ".zshrc", AliasDup)
  {
    var first := Pass(Empty(), aa.at, aa.keys, ".aliases", AliasRecordOf, AliasDup);
    FirstAliasEntries(aa);
    FirstAliasNoDups(aa);
    PassRecords(first.0, za.at, za.keys, ".zshrc", AliasRecordOf, AliasDup);
    var second := Pass(first.0, za.at, za.keys, ".zshrc", AliasRecordOf, AliasDup);
    assert [] + second.1 == second.1;
  }

  /** `all_aliases` is a well-formed dict. */
  lemma AllAliasesValid(aa: Dict<string, AliasInfo>, za: Dict<string, AliasInfo>)
    requires Valid(aa) && Valid(za)
    ensures Valid(AllAliases(aa, za).0)
  {
    var e: Dict<string, AliasRecord> := Empty();
    PassValid(e, aa.at, aa.keys, ".aliases", AliasRecordOf, AliasDup);
    var first := Pass(e, aa.at, aa.keys, ".aliases", AliasRecordOf, AliasDup);
    PassValid(first.0, za.at, za.keys, ".zshrc", AliasRecordOf, AliasDup);
  }

  /** The `.aliases` loop fills `all_aliases` with every alias of the file and records no
      duplicate. */
  lemma FirstAliasPass(aa: Dict<string, AliasInfo>)
    requires Valid(aa)
    ensures var first := Pass(Empty(), aa.at, aa.keys, ".aliases", AliasRecordOf, AliasDup);
      first.0.keys == aa.keys && first.0.at == Located(aa.at, ".aliases") && first.1 == []
  {
    FirstAliasKeys(aa);
    FirstAliasEntries(aa);
    FirstAliasNoDups(aa);
  }

  /** The `.aliases` loop lists the names of `.aliases` in order. */
  lemma FirstAliasKeys(aa: Dict<string, AliasInfo>)
    requires Valid(aa)
    ensures Pass(Empty(), aa.at, aa.keys, ".aliases", AliasRecordOf, AliasDup).0.keys == aa.keys
  {
    var e: Dict<string, AliasRecord> := Empty();
    PassKeys(e, aa.at, aa.keys, ".aliases", AliasRecordOf, AliasDup);
    MissingAll<AliasRecord>(aa.keys);
    assert e.keys + aa.keys == aa.keys;
  }

  /** The `.aliases` loop records every alias of `.aliases`, located there. */
  lemma FirstAliasEntries(aa: Dict<string, AliasInfo>)
    requires Valid(aa)
    ensures Pass(Empty(), aa.at, aa.keys, ".aliases", AliasRecordOf, AliasDup).0.at == Located(aa.at, ".aliases")
  {
    var e: Dict<string, AliasRecord> := Empty();
    PassMembers(e, aa.at, aa.keys, ".aliases", AliasRecordOf, AliasDup);
    PassAdds(e, aa.at, aa.keys, ".aliases", AliasRecordOf, AliasDup);
  }

  /** The `.aliases` loop records no duplicate. */
  lemma FirstAliasNoDups(aa: Dict<string, AliasInfo>)
    requires Valid(aa)
    ensures Pass(Empty(), aa.at, aa.keys, ".aliases", AliasRecordOf, AliasDup).1 == []
  {
    var e: Dict<string, AliasRecord> := Empty();
    PassRecords(e, aa.at, aa.keys, ".aliases", AliasRecordOf, AliasDup);
    NoDupsAgainstNothing(aa.at, aa.keys, ".aliases", AliasDup);
  }

  /** `all_functions` and the function duplicates: the `.aliases` loop stores every name
      without a check, then the `.zshrc` loop checks. */
  function AllFunctions(af: Dict<string, FuncInfo>, zf: Dict<string, FuncInfo>): (r: (Dict<string, FuncRecord>, seq<Duplicate>))
    requires Valid(af) && Valid(zf)
  {
    var first := Load(Empty(), af.at, af.keys, ".aliases");
    Pass(first, zf.at, zf.keys, ".zshrc", FuncRecordOf, FuncDup)
  }

  /** The unchecked loop `all_functions[name] = ...` over the keys `keys`. */
  function Load(all: Dict<string, FuncRecord>, src: map<string, FuncInfo>, keys: seq<string>, file: string): (r: Dict<string, FuncRecord>)
    requires Valid(all) && forall k :: k in keys ==> k in src
    ensures Valid(r)
    decreases |keys|
  {
    if keys == [] then all
    else
      var k := keys[|keys| - 1];
      Put(Load(all, src, keys[..|keys| - 1], file), k, FuncRecordOf(src[k], file))
  }

  /** Loading one more name puts its record over what the earlier names loaded. */
  lemma LoadStep(all: Dict<string, FuncRecord>, src: map<string, FuncInfo>, keys: seq<string>, i: nat, file: string)
    requires Valid(all) && i < |keys| && forall k :: k in keys ==> k in src
    ensures Load(all, src, keys[..i + 1], file) == Put(Load(all, src, keys[..i], file), keys[i], FuncRecordOf(src[keys[i]], file))
  {
    assert keys[..i + 1][..i] == keys[..i];
  }

  /** Loading names listed once each into an empty dict lists them in order, each with its
      record. */
  lemma {:induction false} LoadSpec(src: map<string, FuncInfo>, keys: seq<string>, file: string)
    requires Distinct(keys) && forall k :: k in keys ==> k in src
    ensures var r := Load(Empty(), src, keys, file);
      r.keys == keys && (forall k :: k in r.at <==> k in keys)
      && forall k :: k in keys ==> r.at[k] == FuncRecordOf(src[k], file)
    decreases |keys|
  {
    if keys != [] {
      var m := |keys| - 1;
      assert keys == keys[..m] + [keys[m]];
      assert keys[m] !in keys[..m];
      LoadSpec(src, keys[..m], file);
    }
  }

  /** Function duplicates are reported only for `.zshrc` names already defined in
      `.aliases`; `all_functions` keeps the `.aliases` definition of such a name. */
  lemma AllFunctionsSpec(af: Dict<string, FuncInfo>, zf: Dict<string, FuncInfo>)
    requires Valid(af) && Valid(zf)
    ensures var r := AllFunctions(af, zf);
      r.0.keys == af.keys + Missing(af.at, zf.keys)
      && (forall k :: k in r.0.at <==> k in af.at || k in zf.at)
      && (forall k :: k in r.0.at ==> r.0.at[k] == if k in af.at then FuncRecordOf(af.at[k], ".aliases") else FuncRecordOf(zf.at[k], ".zshrc"))
      && r.1 == PassDups(FuncLocated(af.at, ".aliases"), zf.at, zf.keys, ".zshrc", FuncDup)
  {
    var first := Load(Empty(), af.at, af.keys, ".aliases");
    assert first.keys == af.keys && first.at == FuncLocated(af.at, ".aliases") by {
      LoadSpec(af.at, af.keys, ".aliases");
    }
    assert AllFunctions(af, zf).1 == PassDups(FuncLocated(af.at, ".aliases"), zf.at, zf.keys, ".zshrc", FuncDup) by {
      PassRecords(first, zf.at, zf.keys, ".zshrc", FuncRecordOf, FuncDup);
    }
    assert Missing(first.at, zf.keys) == Missing(af.at, zf.keys) by {
      MissingSame(first.at, af.at, zf.keys);
    }
    PassEntries(first, zf.at, zf.keys, ".zshrc", FuncRecordOf, FuncDup);
  }

  // ---------------------------------------------------------------- find_hardcoded_paths

  /** The lines `f.readlines()` gives: each piece between newlines with its newline, and a
      last piece without one when the text does not end in a newline. */
  function ReadLines(content: string): seq<string> {
    KeepEnds(SplitOn(content, '\n'))
  }

  function KeepEnds(pieces: seq<string>): seq<string>
    requires |pieces| >= 1
  {
    if |pieces| == 1 then (if pieces[0] == "" then [] else [pieces[0]])
    else [pieces[0] + "\n"] + KeepEnds(pieces[1..])
  }

  /** Joining the lines `readlines()` gives restores the text. */
  lemma {:induction false} ReadLinesJoin(content: string)
    ensures Concat(ReadLines(content)) == content
    decreases |content|
  {
    if content != [] {
      var rest := content[1..];
      ReadLinesJoin(rest);
      var t := SplitOn(rest, '\n');
      if content[0] == '\n' {
        var u := [""] + t;
        assert SplitOn(content, '\n') == u;
        assert u[0] + "\n" == "\n" && u[1..] == t;
        assert KeepEnds(u) == ["\n"] + KeepEnds(t);
        assert content == "\n" + rest;
      } else {
        var u := [[content[0]] + t[0]] + t[1..];
        assert SplitOn(content, '\n') == u;
        if |t| == 1 {
          assert Concat(KeepEnds(t)) == t[0] by {
            if t[0] != "" {
              assert Concat([t[0]]) == t[0] + Concat([]);
            }
          }
          assert Concat(KeepEnds(u)) == [content[0]] + t[0] by {
            assert Concat([[content[0]] + t[0]]) == [content[0]] + t[0] + Concat([]);
          }
        } else {
          assert KeepEnds(t) == [t[0] + "\n"] + KeepEnds(t[1..]);
          assert KeepEnds(u) == [[content[0]] + t[0] + "\n"] + KeepEnds(t[1..]);
        }
        assert content == [content[0]] + rest;
      }
    }
  }

  /** One of the expressions of `path_patterns`: a fixed lead, then either one run of
      `[^"\s]+` or, when `segment` holds, a run of `[^"\s/]+`, a `/` and a run of
      `[^"\s]+`. */
  datatype PathPattern = PathPattern(lead: string, segment: bool)

  /** `/usr/local/bin/[^"\s]+` */
  const USR_LOCAL_BIN := PathPattern("/usr/local/bin/", false)
  /** `/opt/[^"\s/]+/[^"\s]+` */
  const OPT_TOOL := PathPattern("/opt/", true)
  /** `~/development/[^"\s]+` */
  const DEVELOPMENT_DIR := PathPattern("~/development/", false)

  const PATH_PATTERNS: seq<PathPattern> := [USR_LOCAL_BIN, OPT_TOOL, DEVELOPMENT_DIR]

  /** A character of `[^"\s]`. */
  predicate PathChar(c: char) {
    c != '"' && !IsSpace(c)
  }

  /** A character of `[^"\s/]`. */
  predicate SegChar(c: char) {
    PathChar(c) && c != '/'
  }

  /** The end of the run of path characters from `from`: what a greedy `[^"\s]+` takes. */
  function PathEnd(s: string, from: nat): (k: nat)
    requires from <= |s|
    ensures from <= k <= |s| && (k < |s| ==> !PathChar(s[k]))
    decreases |s| - from
  {
    if from == |s| || !PathChar(s[from]) then from else PathEnd(s, from + 1)
  }

  /** The end of the run of segment characters from `from`: what `[^"\s/]+` takes. */
  function SegEnd(s: string, from: nat): (k: nat)
    requires from <= |s|
    ensures from <= k <= |s| && (k < |s| ==> !SegChar(s[k]))
    decreases |s| - from
  {
    if from == |s| || !SegChar(s[from]) then from else SegEnd(s, from + 1)
  }

  /** Every character `PathEnd` passes over is a path character. */
  lemma {:induction false} PathRun(s: string, from: nat)
    requires from <= |s|
    ensures forall j :: from <= j < PathEnd(s, from) ==> PathChar(s[j])
    decreases |s| - from
  {
    if from < |s| && PathChar(s[from]) {
      PathRun(s, from + 1);
    }
  }

  /** Every character `SegEnd` passes over is a segment character. */
  lemma {:induction false} SegRun(s: string, from: nat)
    requires from <= |s|
    ensures forall j :: from <= j < SegEnd(s, from) ==> SegChar(s[j])
    decreases |s| - from
  {
    if from < |s| && SegChar(s[from]) {
      SegRun(s, from + 1);
    }
  }

  /** `s` holds `lead` at `i`, compared character by character. */
  predicate LeadAt(s: string, i: nat, lead: string)
    decreases |lead|
  {
    i + |lead| <= |s| && (lead == [] || (s[i] == lead[0] && LeadAt(s, i + 1, lead[1..])))
  }

  /** The character comparison is the slice comparison. */
  lemma {:induction false} LeadAtSlice(s: string, i: nat, lead: string)
    ensures LeadAt(s, i, lead) <==> i + |lead| <= |s| && s[i..i + |lead|] == lead
    decreases |lead|
  {
    if lead != [] && i + |lead| <= |s| {
      LeadAtSlice(s, i + 1, lead[1..]);
      assert s[i..i + |lead|] == [s[i]] + s[i + 1..i + 1 + |lead[1..]|];
      assert lead == [lead[0]] + lead[1..];
    }
  }

  /** Where a match of `p` that starts at `i` ends, when one starts there. The runs are
      greedy and nothing follows them, so no backtracking can change the match. */
  function MatchEnd(p: PathPattern, line: string, i: nat): (r: Option<nat>)
    requires i <= |line|
    ensures r.Some? ==> i < r.value <= |line|
  {
    var lead := p.lead;
    if !LeadAt(line, i, lead) then None
    else
      var j := i + |lead|;
      if p.segment then
        var m := SegEnd(line, j);
        if m == j || m == |line| || line[m] != '/' then None
        else
          var e := PathEnd(line, m + 1);
          if e == m + 1 then None else Some(e)
      else
        var e := PathEnd(line, j);
        if e == j then None else Some(e)
  }

  /** `re.finditer(p, line)` from index `i`: the matches, leftmost first, each search
      going on where the previous match ended. */
  function FindIter(p: PathPattern, line: string, i: nat): seq<string>
    requires i <= |line|
    decreases |line| - i
  {
    if i == |line| then []
    else
      match MatchEnd(p, line, i)
      case Some(e) => [line[i..e]] + FindIter(p, line, e)
      case None => FindIter(p, line, i + 1)
  }

  /** What the expression `p` matches, read off the expression. */
  ghost predicate PathShape(p: PathPattern, m: string) {
    var lead := p.lead;
    |lead| < |m| && m[..|lead|] == lead
    && if p.segment then
         exists k :: |lead| < k < |m| - 1 && m[k] == '/'
           && (forall j :: |lead| <= j < k ==> SegChar(m[j]))
           && (forall j :: k < j < |m| ==> PathChar(m[j]))
       else forall j :: |lead| <= j < |m| ==> PathChar(m[j])
  }

  /** A match found at `i` has the expression's shape. */
  lemma MatchShape(p: PathPattern, line: string, i: nat)
    requires i <= |line| && MatchEnd(p, line, i).Some?
    ensures PathShape(p, line[i..MatchEnd(p, line, i).value])
  {
    var e := MatchEnd(p, line, i).value;
    LeadAtSlice(line, i, p.lead);
    if p.segment {
      SegmentShape(p, line, i, SegEnd(line, i + |p.lead|), e);
    } else {
      PlainShape(p, line, i, e);
    }
  }

  /** A match of the expression with a segment: the lead, segment characters, the slash
      at `k`, then path characters. */
  lemma SegmentShape(p: PathPattern, line: string, i: nat, k: nat, e: nat)
    requires p.segment && i + |p.lead| <= k < e <= |line|
    requires line[i..i + |p.lead|] == p.lead
    requires k == SegEnd(line, i + |p.lead|) && k != i + |p.lead| && line[k] == '/'
    requires e == PathEnd(line, k + 1) && e != k + 1
    ensures PathShape(p, line[i..e])
  {
    var m := line[i..e];
    SegRun(line, i + |p.lead|);
    PathRun(line, k + 1);
    assert m[..|p.lead|] == p.lead;
    assert m[k - i] == '/';
    assert forall j :: |p.lead| <= j < k - i ==> m[j] == line[i + j];
    assert forall j :: k - i < j < |m| ==> m[j] == line[i + j];
  }

  /** A match of the expression without a segment: the lead, then path characters. */
  lemma PlainShape(p: PathPattern, line: string, i: nat, e: nat)
    requires !p.segment && i + |p.lead| < e <= |line|
    requires line[i..i + |p.lead|] == p.lead
    requires e == PathEnd(line, i + |p.lead|)
    ensures PathShape(p, line[i..e])
  {
    var m := line[i..e];
    PathRun(line, i + |p.lead|);
    assert m[..|p.lead|] == p.lead;
    assert forall j :: |p.lead| <= j < |m| ==> m[j] == line[i + j];
  }

  /** A run of path characters from `from` to `e` is all taken by `PathEnd`. */
  lemma {:induction false} PathEndReaches(s: string, from: nat, e: nat)
    requires from <= e <= |s|
    requires forall j :: from <= j < e ==> PathChar(s[j])
    ensures PathEnd(s, from) >= e
    decreases e - from
  {
    if from < e {
      PathEndReaches(s, from + 1, e);
    }
  }

  /** A run of segment characters from `from` that stops at a non-segment character `k`
      ends exactly at `k`. */
  lemma {:induction false} SegEndAt(s: string, from: nat, k: nat)
    requires from <= k < |s|
    requires forall j :: from <= j < k ==> SegChar(s[j])
    requires !SegChar(s[k])
    ensures SegEnd(s, from) == k
    decreases k - from
  {
    if from < k {
      SegEndAt(s, from + 1, k);
    }
  }

  /** Every text of the expression's shape that starts at `i` is found there, and the
      match found ends no earlier: `MatchEnd` gives the longest match, as the greedy runs
      of the expression do. */
  lemma MatchComplete(p: PathPattern, line: string, i: nat, e: nat)
    requires i <= e <= |line| && PathShape(p, line[i..e])
    ensures MatchEnd(p, line, i).Some? && e <= MatchEnd(p, line, i).value
  {
    var m := line[i..e];
    assert line[i..i + |p.lead|] == m[..|p.lead|];
    LeadAtSlice(line, i, p.lead);
    if p.segment {
      var k :| |p.lead| < k < |m| - 1 && m[k] == '/'
        && (forall t :: |p.lead| <= t < k ==> SegChar(m[t]))
        && (forall t :: k < t < |m| ==> PathChar(m[t]));
      SegmentFound(p, line, i, i + k, e);
    } else {
      PlainFound(p, line, i, e);
    }
  }

  /** A text of the segment expression's shape, its slash at `k`, is found in full. */
  lemma SegmentFound(p: PathPattern, line: string, i: nat, k: nat, e: nat)
    requires p.segment && i + |p.lead| < k < e - 1 && e <= |line| && line[k] == '/'
    requires forall t :: |p.lead| <= t < k - i ==> SegChar(line[i..e][t])
    requires forall t :: k - i < t < e - i ==> PathChar(line[i..e][t])
    requires LeadAt(line, i, p.lead)
    ensures MatchEnd(p, line, i) == Some(PathEnd(line, k + 1)) && PathEnd(line, k + 1) >= e
  {
    assert forall t :: i + |p.lead| <= t < k ==> line[t] == line[i..e][t - i];
    SegEndAt(line, i + |p.lead|, k);
    assert forall t :: k + 1 <= t < e ==> line[t] == line[i..e][t - i];
    PathEndReaches(line, k + 1, e);
  }

  /** A text of the plain expression's shape is found in full. */
  lemma PlainFound(p: PathPattern, line: string, i: nat, e: nat)
    requires i + |p.lead| <= e <= |line|
    requires !p.segment && i + |p.lead| < e
    requires forall t :: |p.lead| <= t < e - i ==> PathChar(line[i..e][t])
    requires LeadAt(line, i, p.lead)
    ensures MatchEnd(p, line, i) == Some(PathEnd(line, i + |p.lead|)) && PathEnd(line, i + |p.lead|) >= e
  {
    assert forall t :: i + |p.lead| <= t < e ==> line[t] == line[i..e][t - i];
    PathEndReaches(line, i + |p.lead|, e);
  }

  /** `finditer` reports the leftmost match first: when the first text of the
      expression's shape at or after `i` starts at `s`, the first path reported is the
      longest match at `s`, and the search goes on from its end. */
  lemma {:induction false} FindIterLeftmost(p: PathPattern, line: string, i: nat, s: nat, e: nat)
    requires i <= s <= e <= |line| && PathShape(p, line[s..e])
    requires forall t, f :: i <= t < s && t <= f <= |line| ==> !PathShape(p, line[t..f])
    ensures MatchEnd(p, line, s).Some?
    ensures FindIter(p, line, i) == [line[s..MatchEnd(p, line, s).value]] + FindIter(p, line, MatchEnd(p, line, s).value)
    decreases s - i
  {
    MatchComplete(p, line, s, e);
    if i < s {
      if MatchEnd(p, line, i).Some? {
        MatchShape(p, line, i);
        assert false;
      }
      FindIterLeftmost(p, line, i + 1, s, e);
    }
  }

  /** `finditer` reports nothing exactly when no text of the expression's shape starts at
      or after `i`. */
  lemma {:induction false} FindIterEmpty(p: PathPattern, line: string, i: nat)
    requires i <= |line|
    ensures FindIter(p, line, i) == [] <==> forall t, f :: i <= t <= f <= |line| ==> !PathShape(p, line[t..f])
    decreases |line| - i
  {
    if i < |line| {
      FindIterEmpty(p, line, i + 1);
      if MatchEnd(p, line, i).Some? {
        MatchShape(p, line, i);
      } else {
        forall f | i <= f <= |line| ensures !PathShape(p, line[i..f]) {
          if PathShape(p, line[i..f]) {
            MatchComplete(p, line, i, f);
          }
        }
      }
    } else {
      forall t, f | i <= t <= f <= |line| ensures !PathShape(p, line[t..f]) {
        assert line[t..f] == [];
      }
    }
  }

  /** Every path `finditer` reports has the shape of the expression. */
  lemma {:induction false} FindIterShape(p: PathPattern, line: string, i: nat)
    requires i <= |line|
    ensures forall m :: m in FindIter(p, line, i) ==> PathShape(p, m)
    decreases |line| - i
  {
    if i < |line| {
      match MatchEnd(p, line, i)
      case Some(e) =>
        MatchShape(p, line, i);
        FindIterShape(p, line, e);
      case None =>
        FindIterShape(p, line, i + 1);
    }
  }

  /** A record of the `issues` list of `find_hardcoded_paths`. */
  datatype Issue =
    | HardcodedPath(line: nat, content: string)
    | MissingPath(line: nat, content: string, path: string)

  /** The `issue` text of a record. */
  function Message(i: Issue): string {
    match i
    case HardcodedPath(_, _) => "Hardcoded /home/me path - should use $HOME"
    case MissingPath(_, _, path) => "Potential missing path: " + path
  }

  /** A line whose stripped text starts with `#`. */
  predicate CommentLine(line: string) {
    StartsWith(Strip(line), "#")
  }

  /** The records for the matches `ms` of one expression on line `n`: one for each, unless
      the line is a comment. */
  function MatchIssues(n: nat, line: string, ms: seq<string>): seq<Issue>
    decreases |ms|
  {
    if ms == [] then []
    else MatchIssues(n, line, ms[..|ms| - 1]) + (if CommentLine(line) then [] else [MissingPath(n, Strip(line), ms[|ms| - 1])])
  }

  /** The matches of each expression of `ps` on `line`, in the order of `ps`. */
  function Found(ps: seq<PathPattern>, line: string): (r: seq<seq<string>>)
    ensures |r| == |ps|
    decreases |ps|
  {
    if ps == [] then [] else Found(ps[..|ps| - 1], line) + [FindIter(ps[|ps| - 1], line, 0)]
  }

  /** Entry `i` of `Found(ps, line)` is what `finditer` gives for expression `i`. */
  lemma {:induction false} FoundAt(ps: seq<PathPattern>, line: string, i: nat)
    requires i < |ps|
    ensures Found(ps, line)[i] == FindIter(ps[i], line, 0)
    decreases |ps|
  {
    if i < |ps| - 1 {
      FoundAt(ps[..|ps| - 1], line, i);
    }
  }

  /** One more expression adds its matches at the end. */
  lemma FoundStep(ps: seq<PathPattern>, line: string, q: nat)
    requires q < |ps|
    ensures Found(ps[..q + 1], line) == Found(ps[..q], line) + [FindIter(ps[q], line, 0)]
  {
    assert ps[..q + 1][..q] == ps[..q];
  }

  /** The records for the match lists `mss` of line `n`, list by list. */
  function ListIssues(n: nat, line: string, mss: seq<seq<string>>): seq<Issue>
    decreases |mss|
  {
    if mss == [] then []
    else ListIssues(n, line, mss[..|mss| - 1]) + MatchIssues(n, line, mss[|mss| - 1])
  }

  /** The records for line `n`: those of `LineRecords` for the matches of the three
      expressions. */
  function LineIssues(n: nat, line: string): seq<Issue> {
    LineRecords(n, line, Found(PATH_PATTERNS, line))
  }

  /** The records for line `n` whose expressions matched `mss`: the `/home/me/` record,
      then the matches of each expression. */
  function LineRecords(n: nat, line: string, mss: seq<seq<string>>): seq<Issue> {
    (if Contains(line, "/home/me/") && !CommentLine(line) then [HardcodedPath(n, Strip(line))] else [])
    + ListIssues(n, line, mss)
  }

  /** The records for the lines `lines`, numbered from 1. */
  function PathIssues(lines: seq<string>): seq<Issue>
    decreases |lines|
  {
    if lines == [] then []
    else PathIssues(lines[..|lines| - 1]) + LineIssues(|lines|, lines[|lines| - 1])
  }

  /** A comment line gives no record for its matches. */
  lemma {:induction false} CommentMatches(n: nat, line: string, ms: seq<string>)
    requires CommentLine(line)
    ensures MatchIssues(n, line, ms) == []
    decreases |ms|
  {
    if ms != [] {
      CommentMatches(n, line, ms[..|ms| - 1]);
    }
  }

  /** A comment line gives no record for any expression. */
  lemma {:induction false} CommentLists(n: nat, line: string, mss: seq<seq<string>>)
    requires CommentLine(line)
    ensures ListIssues(n, line, mss) == []
    decreases |mss|
  {
    if mss != [] {
      CommentLists(n, line, mss[..|mss| - 1]);
      CommentMatches(n, line, mss[|mss| - 1]);
    }
  }

  /** Any other line gives one record per match, carrying the matched path, in order. */
  lemma {:induction false} PlainMatches(n: nat, line: string, ms: seq<string>)
    requires !CommentLine(line)
    ensures MatchIssues(n, line, ms) == Map(PathIssue(n, line), ms)
    decreases |ms|
  {
    if ms != [] {
      PlainMatches(n, line, ms[..|ms| - 1]);
      var r := MatchIssues(n, line, ms);
      assert |r| == |ms|;
      forall i | 0 <= i < |ms| ensures r[i] == PathIssue(n, line)(ms[i]) {
        if i < |ms| - 1 {
          assert r[i] == MatchIssues(n, line, ms[..|ms| - 1])[i];
        }
      }
    }
  }

  /** The records for one more match list follow those for the lists before it. */
  lemma ListStep(n: nat, line: string, mss: seq<seq<string>>, ms: seq<string>)
    ensures ListIssues(n, line, mss + [ms]) == ListIssues(n, line, mss) + MatchIssues(n, line, ms)
  {
    assert (mss + [ms])[..|mss|] == mss;
  }

  /** The records for three match lists of a line that is not a comment: one per match,
      list by list. */
  lemma PlainLists(n: nat, line: string, mss: seq<seq<string>>)
    requires !CommentLine(line) && |mss| == 3
    ensures ListIssues(n, line, mss)
      == Map(PathIssue(n, line), mss[0]) + Map(PathIssue(n, line), mss[1]) + Map(PathIssue(n, line), mss[2])
  {
    var f := PathIssue(n, line);
    assert mss == [mss[0]] + [mss[1]] + [mss[2]];
    assert ListIssues(n, line, [mss[0]]) == Map(f, mss[0]) by {
      ListStep(n, line, [], mss[0]);
      PlainMatches(n, line, mss[0]);
    }
    assert ListIssues(n, line, [mss[0]] + [mss[1]]) == Map(f, mss[0]) + Map(f, mss[1]) by {
      ListStep(n, line, [mss[0]], mss[1]);
      PlainMatches(n, line, mss[1]);
    }
    ListStep(n, line, [mss[0]] + [mss[1]], mss[2]);
    PlainMatches(n, line, mss[2]);
  }

  /** Comment lines produce no issue; any other line produces one for `/home/me/` when it
      holds that text, then one for each match of each of the three expressions,
      expression by expression (`FoundAt` says list `i` of `Found` is what `finditer`
      gives for expression `i`). */
  lemma LineRecordsSpec(n: nat, line: string, mss: seq<seq<string>>)
    requires |mss| == 3
    ensures CommentLine(line) ==> LineRecords(n, line, mss) == []
    ensures !CommentLine(line) ==>
      LineRecords(n, line, mss)
      == (if Contains(line, "/home/me/") then [HardcodedPath(n, Strip(line))] else [])
         + Map(PathIssue(n, line), mss[0]) + Map(PathIssue(n, line), mss[1]) + Map(PathIssue(n, line), mss[2])
  {
    if CommentLine(line) {
      CommentLists(n, line, mss);
    } else {
      PlainLists(n, line, mss);
    }
  }

  /** The record for a path found on a line that is not a comment. */
  function PathIssue(n: nat, line: string): string -> Issue {
    m => MissingPath(n, Strip(line), m)
  }

  /** The records for the matches of one expression on line `n`, as the innermost loop of
      `find_hardcoded_paths` appends them. */
  method AddMatches(issues: seq<Issue>, n: nat, line: string, matches: seq<string>) returns (r: seq<Issue>)
    ensures r == issues + MatchIssues(n, line, matches)
  {
    r := issues;
    for k := 0 to |matches|
      invariant r == issues + MatchIssues(n, line, matches[..k])
    {
      assert matches[..k + 1][..k] == matches[..k];
      if !StartsWith(Strip(line), "#") {
        r := r + [MissingPath(n, Strip(line), matches[k])];
      }
    }
    assert matches[..|matches|] == matches;
  }

  /** The records for line `n`, as one pass of the outer loop appends them. */
  method AddLine(issues: seq<Issue>, n: nat, line: string) returns (r: seq<Issue>)
    ensures r == issues + LineIssues(n, line)
  {
    r := issues;
    if Contains(line, "/home/me/") && !StartsWith(Strip(line), "#") {
      r := r + [HardcodedPath(n, Strip(line))];
    }
    r := AddPatterns(r, n, line, PATH_PATTERNS);
  }

  /** The records for the expressions `ps` on line `n`, as the loop over
      `path_patterns` appends them. */
  method AddPatterns(issues: seq<Issue>, n: nat, line: string, ps: seq<PathPattern>) returns (r: seq<Issue>)
    ensures r == issues + ListIssues(n, line, Found(ps, line))
  {
    r := issues;
    for q := 0 to |ps|
      invariant r == issues + ListIssues(n, line, Found(ps[..q], line))
    {
      var matches := FindIter(ps[q], line, 0);
      PatternStep(issues, r, n, line, ps, q);
      r := AddMatches(r, n, line, matches);
    }
    assert ps[..|ps|] == ps;
  }

  /** The records of the expressions up to `q` followed by those of expression `q` are the
      records of the expressions up to `q + 1`. */
  lemma PatternStep(issues: seq<Issue>, r: seq<Issue>, n: nat, line: string, ps: seq<PathPattern>, q: nat)
    requires q < |ps| && r == issues + ListIssues(n, line, Found(ps[..q], line))
    ensures r + MatchIssues(n, line, FindIter(ps[q], line, 0)) == issues + ListIssues(n, line, Found(ps[..q + 1], line))
  {
    FoundStep(ps, line, q);
    ListStep(n, line, Found(ps[..q], line), FindIter(ps[q], line, 0));
  }

  /** `find_hardcoded_paths(file)` on the lines `f.readlines()` gives. */
  method FindHardcodedPaths(lines: seq<string>) returns (issues: seq<Issue>)
    ensures issues == PathIssues(lines)
  {
    issues := [];
    for i := 0 to |lines|
      invariant issues == PathIssues(lines[..i])
    {
      assert lines[..i + 1][..i] == lines[..i];
      issues := AddLine(issues, i + 1, lines[i]);
    }
    assert lines[..|lines|] == lines;
  }

  // ---------------------------------------------------------------- analyze_files: report

  /** The commands `analyze_files` looks for conflicting aliases of. */
  const CONFLICTING_COMMANDS: seq<string> := ["cat", "find", "ls", "grep", "top", "df", "du", "ps"]

  /** A record of the `conflicts` list. */
  datatype Conflict = Conflict(command: string, aliases: seq<AliasRecord>)

  /** The test `name == cmd`. */
  function Is(cmd: string): string -> bool {
    name => name == cmd
  }

  /** `[name for name in keys if name == cmd]` has at most one element when the keys are
      listed once each, as the keys of a dict are. */
  lemma {:induction false} AtMostOne(keys: seq<string>, cmd: string)
    requires Distinct(keys)
    ensures |Filter(keys, Is(cmd))| <= 1
    ensures |Filter(keys, Is(cmd))| == 1 <==> cmd in keys
    decreases |keys|
  {
    if keys != [] {
      var m := |keys| - 1;
      assert keys == keys[..m] + [keys[m]];
      assert keys[m] !in keys[..m];
      AtMostOne(keys[..m], cmd);
      FilterSnoc(keys[..m], keys[m], Is(cmd));
    }
  }

  /** The `conflicts` list for the commands `cmds`: a record for each command named by more
      than one key of `all`. */
  function Conflicts(all: Dict<string, AliasRecord>, cmds: seq<string>): seq<Conflict>
    requires Valid(all)
    decreases |cmds|
  {
    if cmds == [] then []
    else
      var cmd := cmds[|cmds| - 1];
      var names := Filter(all.keys, Is(cmd));
      Conflicts(all, cmds[..|cmds| - 1])
        + if |names| > 1 then [Conflict(cmd, seq(|names|, i requires 0 <= i < |names| => if names[i] in all.at then all.at[names[i]] else AliasRecord("", 0, "", "")))] else []
  }

  /** No command ever conflicts: the test compares each name with the command itself, and
      a dict holds a name once. */
  lemma {:induction false} NoConflicts(all: Dict<string, AliasRecord>, cmds: seq<string>)
    requires Valid(all)
    ensures Conflicts(all, cmds) == []
    decreases |cmds|
  {
    if cmds != [] {
      NoConflicts(all, cmds[..|cmds| - 1]);
      AtMostOne(all.keys, cmds[|cmds| - 1]);
    }
  }

  /** The counts of the report. */
  datatype Summary = Summary(totalAliases: nat, totalFunctions: nat, duplicates: nat, pathIssues: nat, conflicts: nat)

  /** The report `analyze_files` returns. */
  datatype Report = Report(summary: Summary, duplicates: seq<Duplicate>, pathIssues: seq<Issue>,
                           conflicts: seq<Conflict>, recommendations: seq<string>)

  const DUPLICATES_ADVICE: string := "Comment out duplicate aliases, keeping the most modern/portable version"
  const PATHS_ADVICE: string := "Replace hardcoded paths with $HOME and XDG variables"
  const CONFLICTS_ADVICE: string := "Resolve conflicting command aliases by using conditional checks"

  /** The recommendations: one per kind of finding that occurred, in a fixed order. */
  function Recommendations(dups: seq<Duplicate>, paths: seq<Issue>, conflicts: seq<Conflict>): (r: seq<string>)
    ensures DUPLICATES_ADVICE in r <==> dups != []
    ensures PATHS_ADVICE in r <==> paths != []
    ensures CONFLICTS_ADVICE in r <==> conflicts != []
    ensures |r| <= 3
  {
    (if dups != [] then [DUPLICATES_ADVICE] else [])
    + (if paths != [] then [PATHS_ADVICE] else [])
    + (if conflicts != [] then [CONFLICTS_ADVICE] else [])
  }

  /** One `for name, info in src.items()` loop of `analyze_files` that checks for
      duplicates: the loop over `.aliases` or `.zshrc` aliases, or over `.zshrc`
      functions. */
  method MergePass<V, E>(all: Dict<string, E>, src: Dict<string, V>, file: string,
                         rec: (V, string) -> E, dup: (string, E, V, string) -> Duplicate)
    returns (r: Dict<string, E>, dups: seq<Duplicate>)
    requires Valid(src)
    ensures (r, dups) == Pass(all, src.at, src.keys, file, rec, dup)
  {
    r, dups := all, [];
    for i := 0 to |src.keys|
      invariant (r, dups) == Pass(all, src.at, src.keys[..i], file, rec, dup)
    {
      var name := src.keys[i];
      assert src.keys[..i + 1][..i] == src.keys[..i] && src.keys[..i + 1][i] == name;
      if name in r.at {
        dups := dups + [dup(name, r.at[name], src.at[name], file)];
      } else {
        r := Insert(r, name, rec(src.at[name], file));
      }
    }
    assert src.keys[..|src.keys|] == src.keys;
  }

  /** The `.aliases` loop over functions, which stores every name without a check. */
  method LoadPass(all: Dict<string, FuncRecord>, src: Dict<string, FuncInfo>, file: string) returns (r: Dict<string, FuncRecord>)
    requires Valid(all) && Valid(src)
    ensures r == Load(all, src.at, src.keys, file)
  {
    r := all;
    for i := 0 to |src.keys|
      invariant r == Load(all, src.at, src.keys[..i], file)
    {
      var name := src.keys[i];
      LoadStep(all, src.at, src.keys, i, file);
      r := Put(r, name, FuncRecordOf(src.at[name], file));
    }
    assert src.keys[..|src.keys|] == src.keys;
  }

  /** The conflict loop over `conflicting_commands`. */
  method FindConflicts(all: Dict<string, AliasRecord>, cmds: seq<string>) returns (conflicts: seq<Conflict>)
    requires Valid(all)
    ensures conflicts == Conflicts(all, cmds) == []
  {
    conflicts := [];
    for q := 0 to |cmds|
      invariant conflicts == Conflicts(all, cmds[..q])
    {
      var cmd := cmds[q];
      assert cmds[..q + 1][..q] == cmds[..q] && cmds[..q + 1][q] == cmd;
      var names: seq<string> := [];
      for j := 0 to |all.keys|
        invariant names == Filter(all.keys[..j], Is(cmd))
      {
        assert all.keys[..j + 1] == all.keys[..j] + [all.keys[j]];
        FilterSnoc(all.keys[..j], all.keys[j], Is(cmd));
        if all.keys[j] == cmd {
          names := names + [all.keys[j]];
        }
      }
      assert all.keys[..|all.keys|] == all.keys;
      if |names| > 1 {
        var records := seq(|names|, i requires 0 <= i < |names| => if names[i] in all.at then all.at[names[i]] else AliasRecord("", 0, "", ""));
        conflicts := conflicts + [Conflict(cmd, records)];
      }
    }
    assert cmds[..|cmds|] == cmds;
    NoConflicts(all, cmds);
  }

  /** The report built from the aliases and functions of `.aliases` (`aa`, `af`) and of
      `.zshrc` (`za`, `zf`) and the path issues of each file. */
  function ReportFrom(aa: Dict<string, AliasInfo>, af: Dict<string, FuncInfo>, za: Dict<string, AliasInfo>, zf: Dict<string, FuncInfo>,
                      aliasesPaths: seq<Issue>, zshrcPaths: seq<Issue>): Report
    requires Valid(aa) && Valid(af) && Valid(za) && Valid(zf)
  {
    var all := AllAliases(aa, za);
    var fns := AllFunctions(af, zf);
    var dups := all.1 + fns.1;
    var paths := aliasesPaths + zshrcPaths;
    Report(Summary(|all.0.keys|, |fns.0.keys|, |dups|, |paths|, 0), dups, paths, [], Recommendations(dups, paths, []))
  }

  /** The report counts every alias and function name once, first definition first, and
      lists as duplicates exactly the `.zshrc` aliases, then the `.zshrc` functions, that
      `.aliases` already defines; it never lists a conflict. */
  lemma ReportSpec(aa: Dict<string, AliasInfo>, af: Dict<string, FuncInfo>, za: Dict<string, AliasInfo>, zf: Dict<string, FuncInfo>,
                   aliasesPaths: seq<Issue>, zshrcPaths: seq<Issue>)
    requires Valid(aa) && Valid(af) && Valid(za) && Valid(zf)
    ensures var r := ReportFrom(aa, af, za, zf, aliasesPaths, zshrcPaths);
      r.summary.totalAliases == |aa.keys| + |Missing(aa.at, za.keys)|
      && r.summary.totalFunctions == |af.keys| + |Missing(af.at, zf.keys)|
      && r.duplicates == PassDups(Located(aa.at, ".aliases"), za.at, za.keys, ".zshrc", AliasDup)
                         + PassDups(FuncLocated(af.at, ".aliases"), zf.at, zf.keys, ".zshrc", FuncDup)
      && r.summary.duplicates == |r.duplicates|
      && r.pathIssues == aliasesPaths + zshrcPaths && r.summary.pathIssues == |r.pathIssues|
      && r.conflicts == [] && r.summary.conflicts == 0
  {
    AllAliasesSpec(aa, za);
    AllFunctionsSpec(af, zf);
  }

  /** The report `analyze_files` builds from the texts of `.aliases` and `.zshrc`. */
  function ReportOf(aliasesText: string, zshrcText: string): Report {
    var al, zl := SplitOn(aliasesText, '\n'), SplitOn(zshrcText, '\n');
    ReportFrom(Aliases(al), Functions(al), Aliases(zl), Functions(zl),
               PathIssues(ReadLines(aliasesText)), PathIssues(ReadLines(zshrcText)))
  }

  /** The recommendation list, built one `if` at a time. */
  method Recommend(duplicates: seq<Duplicate>, aliasesPaths: seq<Issue>, zshrcPaths: seq<Issue>, conflicts: seq<Conflict>)
    returns (recommendations: seq<string>)
    ensures recommendations == Recommendations(duplicates, aliasesPaths + zshrcPaths, conflicts)
  {
    recommendations := [];
    if duplicates != [] {
      recommendations := recommendations + [DUPLICATES_ADVICE];
    }
    if aliasesPaths != [] || zshrcPaths != [] {
      recommendations := recommendations + [PATHS_ADVICE];
    }
    if conflicts != [] {
      recommendations := recommendations + [CONFLICTS_ADVICE];
    }
  }

  /** The part of `analyze_files` after the extraction and the path scan. */
  method BuildReport(aa: Dict<string, AliasInfo>, af: Dict<string, FuncInfo>, za: Dict<string, AliasInfo>, zf: Dict<string, FuncInfo>,
                     aliasesPaths: seq<Issue>, zshrcPaths: seq<Issue>) returns (report: Report)
    requires Valid(aa) && Valid(af) && Valid(za) && Valid(zf)
    ensures report == ReportFrom(aa, af, za, zf, aliasesPaths, zshrcPaths)
  {
    var allAliases, d1 := MergePass(Empty(), aa, ".aliases", AliasRecordOf, AliasDup);
    var d2;
    allAliases, d2 := MergePass(allAliases, za, ".zshrc", AliasRecordOf, AliasDup);
    var duplicates := d1 + d2;
    var allFunctions := LoadPass(Empty(), af, ".aliases");
    var d3;
    allFunctions, d3 := MergePass(allFunctions, zf, ".zshrc", FuncRecordOf, FuncDup);
    duplicates := duplicates + d3;
    AllAliasesValid(aa, za);
    var conflicts := FindConflicts(allAliases, CONFLICTING_COMMANDS);
    var recommendations := Recommend(duplicates, aliasesPaths, zshrcPaths, conflicts);
    var paths := aliasesPaths + zshrcPaths;
    report := Report(Summary(|allAliases.keys|, |allFunctions.keys|, |duplicates|, |paths|, |conflicts|),
                     duplicates, paths, conflicts, recommendations);
  }

  /** `analyze_files()` on the texts of `.aliases` and `.zshrc`. */
  method AnalyzeFiles(aliasesText: string, zshrcText: string) returns (report: Report)
    ensures report == ReportOf(aliasesText, zshrcText)
    ensures report.conflicts == [] && report.summary.conflicts == 0
    ensures report.summary.duplicates == |report.duplicates| && report.summary.pathIssues == |report.pathIssues|
    ensures report.recommendations == Recommendations(report.duplicates, report.pathIssues, [])
  {
    var aa, af := ExtractAliases(aliasesText);
    var za, zf := ExtractAliases(zshrcText);
    var aliasesPaths := FindHardcodedPaths(ReadLines(aliasesText));
    var zshrcPaths := FindHardcodedPaths(ReadLines(zshrcText));
    report := BuildReport(aa, af, za, zf, aliasesPaths, zshrcPaths);
  }
}
