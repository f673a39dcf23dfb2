/** The canonical writer of prebuilt contributions (packages/cli/src/prebuilt-writer.lib.ts). */
module PrebuiltWriter {
  import opened Wrappers
  import Ordering
  import Sequences

  datatype Contribution = Contribution(feature: string, key: string, importPath: string, exportName: string)

  // ---------- validation ----------

  predicate IsLetter(c: char) {
    'A' <= c <= 'Z' || 'a' <= c <= 'z'
  }

  predicate IsDigit(c: char) {
    '0' <= c <= '9'
  }

  predicate IsIdentifierStart(c: char) {
    IsLetter(c) || c == '_' || c == '$'
  }

  predicate IsIdentifier(s: string) {
    s != [] && IsIdentifierStart(s[0]) && forall i :: 0 < i < |s| ==> IsIdentifierStart(s[i]) || IsDigit(s[i])
  }

  predicate IsPathChar(c: char) {
    IsLetter(c) || IsDigit(c) || c == '_' || c == '-' || c == '.' || c == '/'
  }

  predicate IsRelativeImport(s: string) {
    var rest := if "../" <= s then s[3..] else if "./" <= s then s[2..] else [];
    rest != [] && forall i :: 0 <= i < |rest| ==> IsPathChar(rest[i])
  }

  const MAX_CONTROL_CHAR_CODE: int := 0x1f

  predicate HasControlCharacter(s: string) {
    exists i :: 0 <= i < |s| && s[i] as int <= MAX_CONTROL_CHAR_CODE
  }

  predicate IsValid(c: Contribution) {
    && IsIdentifier(c.feature) && IsIdentifier(c.exportName) && IsRelativeImport(c.importPath)
    && c.key != [] && !HasControlCharacter(c.key)
  }

  method FindControlCharacter(s: string) returns (found: bool)
    ensures found <==> HasControlCharacter(s)
  {
    for i := 0 to |s|
      invariant forall k :: 0 <= k < i ==> s[k] as int > MAX_CONTROL_CHAR_CODE
    {
      if s[i] as int <= MAX_CONTROL_CHAR_CODE { return true; }
    }
    return false;
  }

  // ---------- deduplication ----------

  function Id(c: Contribution): string {
    c.feature + ":" + c.key
  }

  predicate SameSlot(a: Contribution, b: Contribution) {
    a.feature == b.feature && a.key == b.key
  }

  /** Two contributions claim the same feature and key but differ. */
  predicate Conflict(cs: seq<Contribution>) {
    exists i, j :: 0 <= i < j < |cs| && SameSlot(cs[i], cs[j]) && cs[i] != cs[j]
  }

  predicate AllValid(cs: seq<Contribution>) {
    forall i :: 0 <= i < |cs| ==> IsValid(cs[i])
  }

  /** The joined id names feature and key without ambiguity, because an identifier holds no colon. */
  lemma IdInjective(a: Contribution, b: Contribution)
    requires IsIdentifier(a.feature) && IsIdentifier(b.feature)
    ensures Id(a) == Id(b) <==> SameSlot(a, b)
  {
    if Id(a) == Id(b) {
      var n, m := |a.feature|, |b.feature|;
      assert Id(a)[n] == ':' && Id(b)[m] == ':';
      assert forall i :: 0 <= i < n ==> Id(a)[i] == a.feature[i] && a.feature[i] != ':';
      assert forall i :: 0 <= i < m ==> Id(b)[i] == b.feature[i] && b.feature[i] != ':';
      assert n == m;
      assert a.feature == Id(a)[..n] && b.feature == Id(b)[..n];
      assert a.key == Id(a)[n + 1..] && b.key == Id(b)[n + 1..];
    }
  }

  /** The map holds, under each joined id, the one contribution seen with it. */
  ghost predicate IndexOk(byId: map<string, Contribution>, seen: seq<Contribution>) {
    && (forall c :: c in seen ==> Id(c) in byId && byId[Id(c)] == c)
    && (forall id :: id in byId ==> byId[id] in seen && Id(byId[id]) == id)
  }

  /** The loop with its map from joined ids; None is the duplicate error. */
  method DedupeContributions(cs: seq<Contribution>) returns (r: Option<seq<Contribution>>)
    requires AllValid(cs)
    ensures r.None? <==> Conflict(cs)
    ensures r.Some? ==> r.value == Sequences.Dedup(cs)
  {
    var byId: map<string, Contribution> := map[];
    var deduped: seq<Contribution> := [];
    for i := 0 to |cs|
      invariant deduped == Sequences.Dedup(cs[..i])
      invariant IndexOk(byId, cs[..i]) && !Conflict(cs[..i])
    {
      var c := cs[i];
      ghost var before := cs[..i];
      assert cs[..i + 1] == before + [c] && (before + [c])[..i] == before;
      Sequences.DedupAre(before);
      var id := Id(c);
      if id !in byId {
        NewSlot(byId, before, c);
        byId := byId[id := c];
        deduped := deduped + [c];
      } else if byId[id] != c {
        Collision(cs, i, byId[id]);
        return None;
      } else {
        KnownSlot(byId, before, c);
      }
    }
    assert cs[..|cs|] == cs;
    return Some(deduped);
  }

  lemma NewSlot(byId: map<string, Contribution>, before: seq<Contribution>, c: Contribution)
    requires AllValid(before) && IsValid(c) && !Conflict(before) && IndexOk(byId, before) && Id(c) !in byId
    ensures IndexOk(byId[Id(c) := c], before + [c]) && !Conflict(before + [c]) && c !in before
  {
    forall k | 0 <= k < |before|
      ensures !SameSlot(before[k], c)
    {
      assert before[k] in before;
      IdInjective(before[k], c);
    }
  }

  lemma KnownSlot(byId: map<string, Contribution>, before: seq<Contribution>, c: Contribution)
    requires !Conflict(before) && IndexOk(byId, before) && Id(c) in byId && byId[Id(c)] == c
    ensures IndexOk(byId, before + [c]) && !Conflict(before + [c])
  {
    var k :| 0 <= k < |before| && before[k] == c;
    forall j | 0 <= j < |before| && SameSlot(before[j], c)
      ensures before[j] == c
    {
      assert j < k || k < j || j == k;
    }
  }

  lemma Collision(cs: seq<Contribution>, i: nat, existing: Contribution)
    requires AllValid(cs) && i < |cs| && existing in cs[..i] && Id(existing) == Id(cs[i]) && existing != cs[i]
    ensures Conflict(cs)
  {
    var k :| 0 <= k < i && cs[k] == existing;
    IdInjective(existing, cs[i]);
  }

  // ---------- ordering by code units ----------

  predicate Less(a: Contribution, b: Contribution) {
    if a.feature != b.feature then Ordering.StringLess(a.feature, b.feature) else Ordering.StringLess(a.key, b.key)
  }

  predicate NotAfter(a: Contribution, b: Contribution) {
    !Less(b, a)
  }

  function SortContributions(cs: seq<Contribution>): seq<Contribution> {
    Ordering.Sort(cs, NotAfter)
  }

  // ---------- grouping ----------

  /** A contribution with its place in the sorted list, which names its import. */
  datatype Entry = Entry(contribution: Contribution, index: nat)

  function Resolve(cs: seq<Contribution>): seq<Entry> {
    var sorted := SortContributions(cs);
    seq(|sorted|, i requires 0 <= i < |sorted| => Entry(sorted[i], i))
  }

  function Feature(group: seq<Entry>): string
    requires group != []
  {
    group[0].contribution.feature
  }

  function Groups(entries: seq<Entry>): (groups: seq<seq<Entry>>)
    ensures forall g :: 0 <= g < |groups| ==> groups[g] != []
  {
    if entries == [] then []
    else
      var before, e := Groups(entries[..|entries| - 1]), entries[|entries| - 1];
      var n := |before|;
      if n > 0 && Feature(before[n - 1]) == e.contribution.feature then before[n - 1 := before[n - 1] + [e]]
      else before + [[e]]
  }

  /** groupByFeature: extends the current group while the feature stays the same. */
  method GroupByFeature(entries: seq<Entry>) returns (groups: seq<seq<Entry>>)
    ensures groups == Groups(entries)
  {
    groups := [];
    for i := 0 to |entries|
      invariant groups == Groups(entries[..i])
    {
      assert entries[..i + 1][..i] == entries[..i];
      var n := |groups|;
      if n > 0 && Feature(groups[n - 1]) == entries[i].contribution.feature {
        groups := groups[n - 1 := groups[n - 1] + [entries[i]]];
      } else {
        groups := groups + [[entries[i]]];
      }
    }
    assert entries[..|entries|] == entries;
  }

  // ---------- the module source ----------

  function ReplaceAll(s: string, c: char, by_: string): string {
    if s == [] then [] else (if s[0] == c then by_ else [s[0]]) + ReplaceAll(s[1..], c, by_)
  }

  const QUOTE := '\''
  const BACKSLASH := '\\'

  function EscapeSingleQuoted(s: string): string {
    [QUOTE] + ReplaceAll(ReplaceAll(s, BACKSLASH, [BACKSLASH, BACKSLASH]), QUOTE, [BACKSLASH, QUOTE]) + [QUOTE]
  }

  function Digits(n: nat): string {
    (if n < 10 then [] else Digits(n / 10)) + [(n % 10 + '0' as int) as char]
  }

  function Alias(index: nat): string {
    "p" + Digits(index)
  }

  function ImportLine(e: Entry): string {
    "import { " + e.contribution.exportName + " as " + Alias(e.index) + " } from "
    + EscapeSingleQuoted(e.contribution.importPath) + ";"
  }

  function KeyLine(e: Entry): string {
    "      " + EscapeSingleQuoted(e.contribution.key) + ": " + Alias(e.index) + ","
  }

  function HeaderLine(feature: string): string {
    "    " + feature + ": {"
  }

  const GROUP_END := "    },"
  const FEATURES_END := "  },"

  function GroupLines(group: seq<Entry>): seq<string>
    requires group != []
  {
    [HeaderLine(Feature(group))] + seq(|group|, i requires 0 <= i < |group| => KeyLine(group[i])) + [GROUP_END]
  }

  function FeatureLines(groups: seq<seq<Entry>>): seq<string>
    requires forall g :: 0 <= g < |groups| ==> groups[g] != []
  {
    if groups == [] then [] else GroupLines(groups[0]) + FeatureLines(groups[1..])
  }

  const MARKER := "Generated by zelt build. Do not edit."

  function ModuleLines(contributions: seq<Contribution>): seq<string> {
    var entries := Resolve(contributions);
    ["// " + MARKER, "import type { ZeltPrebuilt } from '@zeltjs/core';"]
    + seq(|entries|, i requires 0 <= i < |entries| => ImportLine(entries[i]))
    + ["export const zeltPrebuilt = {", "  version: 1,", "  features: {"]
    + FeatureLines(Groups(entries))
    + [FEATURES_END, "} satisfies ZeltPrebuilt;", ""]
  }

  datatype WriteFailure = InvalidContribution | DuplicateContribution

  /** writePrebuiltModule: what the file holds afterwards and whether it was rewritten. */
  method WritePrebuiltModule(existing: Option<seq<string>>, contributions: seq<Contribution>)
    returns (r: Result<(bool, seq<string>), WriteFailure>)
    ensures r == Err(InvalidContribution) <==> !AllValid(contributions)
    ensures r == Err(DuplicateContribution) <==> AllValid(contributions) && Conflict(contributions)
    ensures r.Ok? ==> var (changed, content) := r.value;
              content == ModuleLines(Sequences.Dedup(contributions)) && (changed <==> existing != Some(content))
  {
    for i := 0 to |contributions|
      invariant forall k :: 0 <= k < i ==> IsValid(contributions[k])
    {
      if !IsValid(contributions[i]) { return Err(InvalidContribution); }
    }
    var deduped := DedupeContributions(contributions);
    if deduped.None? { return Err(DuplicateContribution); }
    var content := ModuleLines(deduped.value);
    return Ok((existing != Some(content), content));
  }
}
