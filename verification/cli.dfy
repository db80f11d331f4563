/** `deploy_kit/cli.py`: the `--only` option of `deploy`, the exit status of
    `deploy`, the `.gitignore` merge of `init` and the env dump of `plan -a`. */
module Cli {
  import opened Wrappers
  import Text
  import Split
  import Order
  import Dict
  import Config
  import opened Orchestrator

  // ---------------------------------------------------------------------
  // deploy --only
  // ---------------------------------------------------------------------

  /** The stripped, non-empty parts, in order. */
  function KeepNames(parts: seq<string>): (r: seq<string>)
    ensures |r| <= |parts|
    ensures forall k :: 0 <= k < |r| ==> r[k] != [] && Text.IsStripped(r[k])
  {
    if parts == [] then []
    else
      var p := Text.Strip(parts[0]);
      (if p != [] then [p] else []) + KeepNames(parts[1..])
  }

  /** Stripping never brings in a character, so parts split on "," keep none. */
  lemma {:induction false} KeepNamesNoComma(parts: seq<string>)
    requires forall k :: 0 <= k < |parts| ==> ',' !in parts[k]
    ensures forall k :: 0 <= k < |KeepNames(parts)| ==> ',' !in KeepNames(parts)[k]
    decreases |parts|
  {
    if parts != [] {
      var p := Text.Strip(parts[0]);
      InfixKeepsAbsence(p, parts[0], ',');
      KeepNamesNoComma(parts[1..]);
    }
  }

  lemma InfixKeepsAbsence(r: string, s: string, c: char)
    requires exists k :: Text.InfixAt(r, s, k)
    ensures c !in s ==> c !in r
  {
    var k :| Text.InfixAt(r, s, k);
    if c in r {
      var j :| 0 <= j < |r| && r[j] == c;
      assert s[k + j] == r[j];
    }
  }

  /** The `--only` value: `None` when blank, otherwise the comma-separated
      parts, stripped, with empty parts dropped. */
  function ParseOnly(only: string): (r: Option<seq<string>>)
    ensures r.None? <==> Text.Strip(only) == []
    ensures r.Some? ==> forall k :: 0 <= k < |r.value| ==>
      r.value[k] != [] && Text.IsStripped(r.value[k]) && ',' !in r.value[k]
  {
    if Text.Strip(only) == [] then None
    else
      KeepNamesNoComma(Split.SplitOn(only, ','));
      Some(KeepNames(Split.SplitOn(only, ',')))
  }

  lemma {:induction false} KeepNamesOfNames(names: seq<string>)
    requires forall k :: 0 <= k < |names| ==> names[k] != [] && Text.IsStripped(names[k])
    ensures KeepNames(names) == names
    decreases |names|
  {
    if names != [] {
      assert Text.Strip(names[0]) == names[0];
      KeepNamesOfNames(names[1..]);
      assert KeepNames(names) == [names[0]] + KeepNames(names[1..]);
    }
  }

  lemma JoinPrefix(names: seq<string>, sep: string)
    requires names != []
    ensures names[0] <= Split.Join(names, sep)
  {
  }

  /** A name is kept exactly when it is the non-empty strip of some part. */
  lemma {:induction false} KeepNamesMembers(parts: seq<string>)
    ensures forall x :: x in KeepNames(parts) <==>
      x != [] && exists j :: 0 <= j < |parts| && Text.Strip(parts[j]) == x
    decreases |parts|
  {
    if parts != [] {
      var p := Text.Strip(parts[0]);
      var rest := parts[1..];
      KeepNamesMembers(rest);
      assert KeepNames(parts) == (if p != [] then [p] else []) + KeepNames(rest);
      forall x | x in KeepNames(parts)
        ensures x != [] && exists j :: 0 <= j < |parts| && Text.Strip(parts[j]) == x
      {
        if x in KeepNames(rest) {
          var j :| 0 <= j < |rest| && Text.Strip(rest[j]) == x;
          assert Text.Strip(parts[j + 1]) == x;
        } else {
          assert Text.Strip(parts[0]) == x;
        }
      }
      forall x, j | x != [] && 0 <= j < |parts| && Text.Strip(parts[j]) == x
        ensures x in KeepNames(parts)
      {
        if j > 0 {
          assert Text.Strip(rest[j - 1]) == x;
        }
      }
    }
  }

  /** A join of two or more parts holds a "," and so is never blank. */
  lemma JoinNotBlank(parts: seq<string>)
    requires |parts| >= 2
    ensures Text.Strip(Split.Join(parts, ",")) != []
  {
    var s := Split.Join(parts, ",");
    assert s == parts[0] + "," + Split.Join(parts[1..], ",");
    assert s[|parts[0]|] == ',';
    Text.StripEmpty(s);
  }

  /** Parsing comma-free parts joined by ",": nothing is selected only for a
      lone blank part (or none at all); otherwise the selection is the parts'
      kept names. */
  lemma ParseOnlyParts(parts: seq<string>)
    requires forall k :: 0 <= k < |parts| ==> ',' !in parts[k]
    ensures ParseOnly(Split.Join(parts, ","))
         == if |parts| <= 1 && KeepNames(parts) == [] then None else Some(KeepNames(parts))
  {
    if |parts| == 0 {
      assert Split.Join(parts, ",") == "";
      assert |Text.Strip("")| == 0;
    } else if |parts| == 1 {
      var p := parts[0];
      assert ',' !in p;
      ParseOnlyOne(p);
      assert parts == [p];
    } else {
      ParseOnlyMany(parts);
    }
  }

  lemma ParseOnlyOne(part: string)
    requires ',' !in part
    ensures ParseOnly(Split.Join([part], ",")) == if KeepNames([part]) == [] then None else Some(KeepNames([part]))
  {
    assert Split.Join([part], ",") == part;
    assert Split.SplitOn(part, ',') == [part];
    assert KeepNames([part][1..]) == [];
  }

  lemma ParseOnlyMany(parts: seq<string>)
    requires |parts| >= 2
    requires forall k :: 0 <= k < |parts| ==> ',' !in parts[k]
    ensures ParseOnly(Split.Join(parts, ",")) == Some(KeepNames(parts))
  {
    JoinNotBlank(parts);
    Split.SplitJoin(parts, ',');
  }

  /** Writing non-empty, stripped, comma-free names joined by "," and parsing
      the result gives the names back. */
  lemma ParseOnlyJoin(names: seq<string>)
    requires names != []
    requires forall k :: 0 <= k < |names| ==> names[k] != [] && Text.IsStripped(names[k]) && ',' !in names[k]
    ensures ParseOnly(Split.Join(names, ",")) == Some(names)
  {
    ParseOnlyParts(names);
    KeepNamesOfNames(names);
  }

  function UnknownNames(names: seq<string>): (r: seq<string>)
    ensures forall s :: s in r <==> s in names && s !in AllSections
  {
    if names == [] then []
    else (if names[0] in AllSections then [] else [names[0]]) + UnknownNames(names[1..])
  }

  /** The sorted, deduplicated requested names that are not sections. */
  function InvalidSections(names: seq<string>): (r: seq<string>)
    ensures Order.StrictlySorted(r)
    ensures forall s :: s in r <==> s in names && s !in AllSections
  {
    Order.SortedUnique(UnknownNames(names))
  }

  function InvalidMessage(invalid: seq<string>): string {
    "[ERROR] 잘못된 섹션 이름이 있습니다: " + Split.Join(invalid, ", ")
    + "\n허용되는 섹션: " + Split.Join(AllSections, ", ")
  }

  function LoadFailedMessage(e: Config.ConfigError): string {
    "[ERROR] 설정 로드 실패: " + Config.ErrorMessage(e)
  }

  /** What a command printed (each `click.echo` ends its text with "\n"),
      its exit status, and whether `apply_all` ran. */
  datatype CliOutcome = CliOutcome(stdout: string, stderr: string, exitCode: int, applied: bool)

  /** Whether the `--only` request names an unknown section. */
  predicate Rejected(only: string) {
    ParseOnly(only).Some? && InvalidSections(ParseOnly(only).value) != []
  }

  /** `deploy --only <only>` on the loaded environment `env`, with `fails`
      telling which sections' steps raise. */
  method Deploy(env: Config.Env, only: string, fails: string -> bool) returns (o: CliOutcome)
    ensures Config.FromEnv(env).Failure? ==>
      o == CliOutcome("", LoadFailedMessage(Config.FromEnv(env).error) + "\n", 1, false)
    ensures Config.FromEnv(env).Success? && Rejected(only) ==>
      o == CliOutcome("", InvalidMessage(InvalidSections(ParseOnly(only).value)) + "\n", 1, false)
    ensures o.applied <==> Config.FromEnv(env).Success? && !Rejected(only)
    ensures o.applied ==>
      (o.exitCode == 0 <==> Having(AllSections, FilterSections(Config.FromEnv(env).value, ParseOnly(only)), fails, FailedSection) == [])
    ensures o.applied ==>
      var cfg := Config.FromEnv(env).value;
      var sections := FilterSections(cfg, ParseOnly(only));
      && o.stderr == ""
      && o.stdout == ApplySummary(cfg, Having(AllSections, sections, fails, Executed),
                                  Having(AllSections, sections, fails, Skipped),
                                  Having(AllSections, sections, fails, FailedSection)) + "\n"
    ensures o.exitCode == 0 || o.exitCode == 1
  {
    var loaded := Config.FromEnv(env);
    if loaded.Failure? {
      return CliOutcome("", LoadFailedMessage(loaded.error) + "\n", 1, false);
    }
    var onlyList := ParseOnly(only);
    if onlyList.Some? {
      var invalid := InvalidSections(onlyList.value);
      if invalid != [] {
        return CliOutcome("", InvalidMessage(invalid) + "\n", 1, false);
      }
    }
    var summary, hasFailures, _, _, _ := ApplyAll(loaded.value, onlyList, fails);
    o := CliOutcome(summary + "\n", "", if hasFailures then 1 else 0, true);
  }

  // ---------------------------------------------------------------------
  // init: .gitignore
  // ---------------------------------------------------------------------

  const IgnorePatterns: seq<string> := [".env.infra", ".env.secrets", ".env.services"]
  const IgnoreHeader: string := "# deploy-gcp: ignore local env files"

  function Absent(patterns: seq<string>, lines: seq<string>): (r: seq<string>)
    ensures IsSubsequence(r, patterns)
    ensures forall p :: p in r <==> p in patterns && p !in lines
  {
    if patterns == [] then []
    else if patterns[0] in lines then Absent(patterns[1..], lines)
    else
      var rest := Absent(patterns[1..], lines);
      assert ([patterns[0]] + rest)[1..] == rest;
      [patterns[0]] + rest
  }

  /** The patterns not among the existing lines, in canonical order. */
  function MissingPatterns(lines: seq<string>): (r: seq<string>)
    ensures IsSubsequence(r, IgnorePatterns)
    ensures forall p :: p in r <==> p in IgnorePatterns && p !in lines
  {
    Absent(IgnorePatterns, lines)
  }

  /** The existing content with "\n" added when it is non-empty and lacks one. */
  function WithNewline(existing: string): (r: string)
    ensures r == [] || r[|r| - 1] == '\n'
    ensures existing <= r
  {
    if existing != [] && existing[|existing| - 1] != '\n' then existing + "\n" else existing
  }

  /** The appended block's lines: a blank line, the header, the missing patterns. */
  function BlockLines(missing: seq<string>): seq<string> {
    ["", IgnoreHeader] + missing
  }

  /** The new `.gitignore` content, or `None` when `init` leaves it alone. */
  function GitignoreMerge(existing: string): (r: Option<string>)
    ensures r.None? <==> existing != [] && MissingPatterns(Split.SplitLines(existing)) == []
    ensures r.Some? ==> existing <= r.value && |r.value| > 0 && r.value[|r.value| - 1] == '\n'
  {
    var lines := if existing != [] then Split.SplitLines(existing) else [];
    var missing := MissingPatterns(lines);
    if existing == [] || missing != [] then
      Some(WithNewline(existing) + Split.Join(BlockLines(missing), "\n") + "\n")
    else None
  }

  /** Printable ASCII text has no line breaks. */
  lemma PrintableNoBreak(s: string)
    requires forall i :: 0 <= i < |s| ==> ' ' <= s[i] <= '~'
    ensures Split.NoBreak(s)
  {
  }

  lemma HeaderNoBreak()
    ensures Split.NoBreak(IgnoreHeader)
  {
    PrintableNoBreak(IgnoreHeader);
  }

  lemma PatternsNoBreak()
    ensures Split.NoBreak(IgnorePatterns[0]) && Split.NoBreak(IgnorePatterns[1]) && Split.NoBreak(IgnorePatterns[2])
  {
  }

  lemma BlockNoBreaks(missing: seq<string>)
    requires forall p :: p in missing ==> p in IgnorePatterns
    ensures forall k :: 0 <= k < |BlockLines(missing)| ==> Split.NoBreak(BlockLines(missing)[k])
  {
    HeaderNoBreak();
    PatternsNoBreak();
    forall k | 0 <= k < |BlockLines(missing)| ensures Split.NoBreak(BlockLines(missing)[k]) {
      if k >= 2 {
        assert missing[k - 2] in missing;
      }
    }
  }

  /** The merged text: the terminated existing content, then the block as lines. */
  lemma MergeValue(existing: string)
    requires GitignoreMerge(existing).Some?
    ensures GitignoreMerge(existing).value
         == WithNewline(existing) + Split.Terminated(BlockLines(MissingPatterns(Split.SplitLines(existing))))
  {
    Split.JoinTerminated(BlockLines(MissingPatterns(Split.SplitLines(existing))));
  }

  /** Appending the block as lines to terminated content appends exactly its lines. */
  lemma BlockAppendLines(head: string, missing: seq<string>)
    requires head == [] || head[|head| - 1] == '\n'
    requires forall p :: p in missing ==> p in IgnorePatterns
    ensures Split.SplitLines(head + Split.Terminated(BlockLines(missing)))
         == Split.SplitLines(head) + BlockLines(missing)
  {
    Split.SplitLinesAppend(head, Split.Terminated(BlockLines(missing)));
    BlockNoBreaks(missing);
    Split.SplitTerminated(BlockLines(missing));
  }

  /** The new content's lines are those of the existing content (terminated),
      then a blank line, the header and exactly the missing patterns. */
  lemma MergeLines(existing: string)
    requires GitignoreMerge(existing).Some?
    ensures var missing := MissingPatterns(Split.SplitLines(existing));
      Split.SplitLines(GitignoreMerge(existing).value)
        == Split.SplitLines(WithNewline(existing)) + ["", IgnoreHeader] + missing
  {
    var missing := MissingPatterns(Split.SplitLines(existing));
    MergeValue(existing);
    BlockAppendLines(WithNewline(existing), missing);
  }

  /** The lines of the content with "\n" added include all the old lines. */
  lemma WithNewlineKeepsLines(existing: string)
    ensures forall x :: x in Split.SplitLines(existing) ==> x in Split.SplitLines(WithNewline(existing))
  {
    if existing != [] && existing[|existing| - 1] != '\n' {
      Split.SplitLinesNewline(existing);
    }
  }

  /** When the existing content does not end in a break other than "\n", the
      old lines are kept exactly and the block follows them. */
  lemma MergeKeepsLines(existing: string)
    requires GitignoreMerge(existing).Some?
    requires existing == [] || existing[|existing| - 1] == '\n' || !Split.IsLineBreak(existing[|existing| - 1])
    ensures Split.SplitLines(GitignoreMerge(existing).value)
         == Split.SplitLines(existing) + ["", IgnoreHeader] + MissingPatterns(Split.SplitLines(existing))
  {
    MergeLines(existing);
    WithNewlineSameLines(existing);
  }

  /** Adding the final "\n" keeps the lines exactly unless the content ends in
      a break other than "\n". */
  lemma WithNewlineSameLines(existing: string)
    requires existing == [] || existing[|existing| - 1] == '\n' || !Split.IsLineBreak(existing[|existing| - 1])
    ensures Split.SplitLines(WithNewline(existing)) == Split.SplitLines(existing)
  {
    if existing != [] && existing[|existing| - 1] != '\n' {
      Split.SplitLinesNewline(existing);
    }
  }

  lemma {:induction false} AbsentNone(patterns: seq<string>, lines: seq<string>)
    requires forall k :: 0 <= k < |patterns| ==> patterns[k] in lines
    ensures Absent(patterns, lines) == []
    decreases |patterns|
  {
    if patterns != [] {
      AbsentNone(patterns[1..], lines);
    }
  }

  /** A pattern is among the old lines or the appended ones whenever the
      appended ones are exactly those missing from the old. */
  lemma PatternsCovered(head: seq<string>, before: seq<string>, missing: seq<string>, lines: seq<string>)
    requires forall x :: x in before ==> x in head
    requires forall p :: p in missing <==> p in IgnorePatterns && p !in before
    requires lines == head + ["", IgnoreHeader] + missing
    ensures forall k :: 0 <= k < |IgnorePatterns| ==> IgnorePatterns[k] in lines
  {
    forall k | 0 <= k < |IgnorePatterns| ensures IgnorePatterns[k] in lines {
      var p := IgnorePatterns[k];
      if p in missing {
        var j :| 0 <= j < |missing| && missing[j] == p;
        assert lines[|head| + 2 + j] == p;
      } else {
        var j :| 0 <= j < |head| && head[j] == p;
        assert lines[j] == p;
      }
    }
  }

  /** Every pattern is among the lines of the merged content. */
  lemma MergedHasPatterns(existing: string)
    requires GitignoreMerge(existing).Some?
    ensures forall k :: 0 <= k < |IgnorePatterns| ==> IgnorePatterns[k] in Split.SplitLines(GitignoreMerge(existing).value)
  {
    MergeLines(existing);
    WithNewlineKeepsLines(existing);
    PatternsCovered(Split.SplitLines(WithNewline(existing)), Split.SplitLines(existing),
                    MissingPatterns(Split.SplitLines(existing)), Split.SplitLines(GitignoreMerge(existing).value));
  }

  /** Running `init` on its own output leaves `.gitignore` alone. */
  lemma MergeIdempotent(existing: string)
    requires GitignoreMerge(existing).Some?
    ensures GitignoreMerge(GitignoreMerge(existing).value) == None
  {
    var merged := GitignoreMerge(existing).value;
    MergedHasPatterns(existing);
    AbsentNone(IgnorePatterns, Split.SplitLines(merged));
  }

  // ---------------------------------------------------------------------
  // plan -a: the env dump
  // ---------------------------------------------------------------------

  /** What `dotenv_values` returns for one file: keys in file order, `None`
      for a key written without a value. */
  type DotenvValues = Dict.Entries<Option<string>>

  const DumpFiles: seq<string> := [".env.infra", ".env.secrets", ".env.services"]
  const EmptyPlaceholder: string := "- (파일이 없거나 비어 있습니다)"

  /** The entries shown for the keys `keys` (sorted): those with a value. */
  function Shown(keys: seq<string>, d: DotenvValues): (r: seq<(string, string)>)
    requires Order.StrictlySorted(keys)
    ensures forall k, v :: (k, v) in r <==> k in keys && Dict.Get(d, k) == Some(Some(v))
  {
    if keys == [] then []
    else
      var rest := Shown(keys[1..], d);
      var g := Dict.Get(d, keys[0]);
      if g.Some? && g.value.Some? then [(keys[0], g.value.value)] + rest else rest
  }

  /** Every shown entry's key is one of the keys. */
  lemma ShownKeysFrom(keys: seq<string>, d: DotenvValues)
    requires Order.StrictlySorted(keys)
    ensures forall i :: 0 <= i < |Shown(keys, d)| ==> Shown(keys, d)[i].0 in keys
  {
    var r := Shown(keys, d);
    forall i | 0 <= i < |r| ensures r[i].0 in keys {
      assert (r[i].0, r[i].1) in r;
    }
  }

  /** A key below every key of a sorted list extends it to a sorted list. */
  lemma SortedCons(x: string, xs: seq<string>)
    requires Order.StrictlySorted(xs)
    requires forall j :: 0 <= j < |xs| ==> Order.StrLt(x, xs[j])
    ensures Order.StrictlySorted([x] + xs)
  {
    var ys := [x] + xs;
    forall i, j | 0 <= i < j < |ys| ensures Order.StrLt(ys[i], ys[j]) {
      if i > 0 {
        assert ys[i] == xs[i - 1] && ys[j] == xs[j - 1];
      } else {
        assert ys[j] == xs[j - 1];
      }
    }
  }

  /** The shown entries keep the sorted order of the keys. */
  lemma {:induction false} ShownSorted(keys: seq<string>, d: DotenvValues)
    requires Order.StrictlySorted(keys)
    ensures Order.StrictlySorted(Dict.Keys(Shown(keys, d)))
    decreases |keys|
  {
    if keys != [] {
      var rest := Shown(keys[1..], d);
      ShownSorted(keys[1..], d);
      var r := Shown(keys, d);
      if r != rest {
        var rk := Dict.Keys(rest);
        ShownKeysFrom(keys[1..], d);
        forall j | 0 <= j < |rk| ensures Order.StrLt(keys[0], rk[j]) {
          var m :| 0 <= m < |keys[1..]| && keys[1..][m] == rk[j];
          assert keys[m + 1] == rk[j];
        }
        SortedCons(keys[0], rk);
        assert Dict.Keys(r) == [keys[0]] + rk;
      }
    }
  }

  /** "- key=value" per shown entry. */
  function EntryLines(entries: seq<(string, string)>): (lines: seq<string>)
    ensures |lines| == |entries|
    ensures forall i :: 0 <= i < |entries| ==> lines[i] == "- " + entries[i].0 + "=" + entries[i].1
  {
    if entries == [] then [] else ["- " + entries[0].0 + "=" + entries[0].1] + EntryLines(entries[1..])
  }

  /** One file's part of the dump: its header, the placeholder for an empty
      file or its valued entries in key order, and a blank line. */
  function DumpSection(name: string, d: DotenvValues): (lines: seq<string>)
    ensures |lines| >= 2 && lines[0] == "## " + name && lines[|lines| - 1] == ""
    ensures d == [] ==> lines == ["## " + name, EmptyPlaceholder, ""]
    ensures d != [] ==> lines[1..|lines| - 1] == EntryLines(Shown(Order.SortedUnique(Dict.Keys(d)), d))
  {
    ["## " + name]
    + (if d == [] then [EmptyPlaceholder] else EntryLines(Shown(Order.SortedUnique(Dict.Keys(d)), d)))
    + [""]
  }

  function DumpLines(names: seq<string>, files: map<string, DotenvValues>): seq<string> {
    if names == [] then []
    else DumpSection(names[0], if names[0] in files then files[names[0]] else []) + DumpLines(names[1..], files)
  }

  /** `_build_env_dump`: the three sections joined by "\n", with trailing
      whitespace removed. A file that does not exist reads as empty. */
  function EnvDump(files: map<string, DotenvValues>): (r: string)
    ensures var full := Split.Join(DumpLines(DumpFiles, files), "\n");
      && |r| <= |full| && full[..|r|] == r
      && (forall i :: |r| <= i < |full| ==> Text.IsSpace(full[i]))
      && (r == [] || !Text.IsSpace(r[|r| - 1]))
  {
    Text.RStrip(Split.Join(DumpLines(DumpFiles, files), "\n"))
  }

  /** The dump opens with the first file's header. */
  lemma EnvDumpStart(files: map<string, DotenvValues>)
    ensures Text.StartsWith(EnvDump(files), "## .env.infra")
  {
    var lines := DumpLines(DumpFiles, files);
    assert lines[0] == "## .env.infra";
    var full := Split.Join(lines, "\n");
    JoinPrefix(lines, "\n");
    var r := EnvDump(files);
    assert full[12] == 'a';
    assert |r| > 12;
    assert r[..13] == full[..13];
  }
}
