/**
 Evaluating a module the prebuilt writer wrote: its imports and the object literal of its features.  In an
 object literal a property named `__proto__` sets the prototype and makes no entry.
 */
module PrebuiltReader {
  import opened Wrappers
  import Sequences
  import opened PrebuiltWriter
  import opened PrebuiltWriterProofs

  datatype Import = Import(importPath: string, exportName: string)

  /** What an alias stands for. */
  type Imports = map<nat, Import>

  type Object<V> = map<string, V>

  const PROTO := "__proto__"

  /** A property of an object literal. */
  function Put<V>(object_: Object<V>, name: string, value: V): Object<V> {
    if name == PROTO then object_ else object_[name := value]
  }

  // ---------- the reader, line by line ----------

  function Skip(prefix: string, text: string): Option<string> {
    if prefix <= text then Some(text[|prefix|..]) else None
  }

  predicate IsIdentifierPart(c: char) {
    IsIdentifierStart(c) || IsDigit(c)
  }

  function ReadIdentifier(text: string): (string, string) {
    if text == [] || !IsIdentifierPart(text[0]) then ([], text)
    else
      var (name, rest) := ReadIdentifier(text[1..]);
      ([text[0]] + name, rest)
  }

  function ReadNumber(text: string, read: nat): (nat, string) {
    if text == [] || !IsDigit(text[0]) then (read, text)
    else ReadNumber(text[1..], read * 10 + (text[0] as int - '0' as int))
  }

  /** A single-quoted literal after a prefix: its value and the text after it. */
  function ReadQuotedAfter(prefix: string, text: string): Option<(string, string)> {
    match Skip(prefix + [QUOTE], text)
    case None => None
    case Some(quoted) => ReadQuoted(quoted)
  }

  /** An alias after a prefix: its number and the text after it. */
  function ReadAliasAfter(prefix: string, text: string): Option<(nat, string)> {
    match Skip(prefix + "p", text)
    case None => None
    case Some(digits) => Some(ReadNumber(digits, 0))
  }

  /** import { name as p0 } from 'path'; */
  function ReadImport(line: string): Option<(nat, Import)> {
    match Skip("import { ", line)
    case None => None
    case Some(open) =>
      var (name, afterName) := ReadIdentifier(open);
      match ReadAliasAfter(" as ", afterName)
      case None => None
      case Some((index, afterAlias)) =>
        match ReadQuotedAfter(" } from ", afterAlias)
        case None => None
        case Some((path, end)) => if end == ";" then Some((index, Import(path, name))) else None
  }

  /** The name of a feature, opening its object. */
  function ReadHeader(line: string): Option<string> {
    match Skip("    ", line)
    case None => None
    case Some(open) => if ReadIdentifier(open).1 == ": {" then Some(ReadIdentifier(open).0) else None
  }

  /** 'key': p0, */
  function ReadEntry(line: string): Option<(string, nat)> {
    match ReadQuotedAfter("      ", line)
    case None => None
    case Some((key, afterKey)) =>
      match ReadAliasAfter(": ", afterKey)
      case None => None
      case Some((index, end)) => if end == "," then Some((key, index)) else None
  }

  // ---------- the reader, block by block: what was read and the lines after it ----------

  function ReadImports(lines: seq<string>, imports: Imports): (Imports, seq<string>) {
    if lines == [] then (imports, lines)
    else
      match ReadImport(lines[0])
      case None => (imports, lines)
      case Some((index, value)) => ReadImports(lines[1..], imports[index := value])
  }

  function ReadEntries(lines: seq<string>, imports: Imports, read: Object<Import>): Option<(Object<Import>, seq<string>)> {
    if lines == [] then None
    else if lines[0] == GROUP_END then Some((read, lines[1..]))
    else
      match ReadEntry(lines[0])
      case None => None
      case Some((key, index)) =>
        if index !in imports then None else ReadEntries(lines[1..], imports, Put(read, key, imports[index]))
  }

  lemma {:induction false} EntriesShrink(lines: seq<string>, imports: Imports, read: Object<Import>)
    ensures ReadEntries(lines, imports, read).Some? ==> |ReadEntries(lines, imports, read).value.1| < |lines|
  {
    if lines != [] && lines[0] != GROUP_END && ReadEntry(lines[0]).Some? && ReadEntry(lines[0]).value.1 in imports {
      var (key, index) := ReadEntry(lines[0]).value;
      EntriesShrink(lines[1..], imports, Put(read, key, imports[index]));
    }
  }

  function ReadFeatures(lines: seq<string>, imports: Imports, read: Object<Object<Import>>): Option<(Object<Object<Import>>, seq<string>)>
    decreases |lines|
  {
    if lines == [] then None
    else if lines[0] == FEATURES_END then Some((read, lines[1..]))
    else
      match ReadHeader(lines[0])
      case None => None
      case Some(feature) =>
        EntriesShrink(lines[1..], imports, map[]);
        match ReadEntries(lines[1..], imports, map[])
        case None => None
        case Some((entries, rest)) => ReadFeatures(rest, imports, Put(read, feature, entries))
  }

  const TYPE_IMPORT := "import type { ZeltPrebuilt } from '@zeltjs/core';"
  const OPENING: seq<string> := ["export const zeltPrebuilt = {", "  version: 1,", "  features: {"]
  const CLOSING: seq<string> := ["} satisfies ZeltPrebuilt;", ""]

  /** The features of a module, by feature and key; None when it is not of the form the writer gives. */
  function ReadModule(lines: seq<string>): Option<Object<Object<Import>>> {
    if |lines| < 2 || lines[1] != TYPE_IMPORT then None
    else
      var (imports, body) := ReadImports(lines[2..], map[]);
      if !(OPENING <= body) then None
      else
        match ReadFeatures(body[|OPENING|..], imports, map[])
        case None => None
        case Some((features, rest)) => if rest == CLOSING then Some(features) else None
  }

  // ---------- the lines read back ----------

  lemma SkipPrefix(prefix: string, rest: string)
    ensures Skip(prefix, prefix + rest) == Some(rest)
  {
  }

  lemma {:induction false} IdentifierReadsBack(name: string, rest: string)
    requires forall i :: 0 <= i < |name| ==> IsIdentifierPart(name[i])
    requires rest == [] || !IsIdentifierPart(rest[0])
    ensures ReadIdentifier(name + rest) == (name, rest)
  {
    if name == [] {
      assert name + rest == rest;
    } else {
      assert (name + rest)[1..] == name[1..] + rest;
      IdentifierReadsBack(name[1..], rest);
      assert name == [name[0]] + name[1..];
    }
  }

  predicate AllDigits(s: string) {
    forall i :: 0 <= i < |s| ==> IsDigit(s[i])
  }

  lemma {:induction false} NumberSplits(a: string, b: string, read: nat)
    requires AllDigits(a)
    ensures ReadNumber(a, read).1 == []
    ensures ReadNumber(a + b, read) == ReadNumber(b, ReadNumber(a, read).0)
  {
    if a == [] {
      assert a + b == b;
    } else {
      assert (a + b)[1..] == a[1..] + b;
      NumberSplits(a[1..], b, read * 10 + (a[0] as int - '0' as int));
    }
  }

  lemma {:induction false} DigitsReadBack(n: nat)
    ensures AllDigits(Digits(n)) && ReadNumber(Digits(n), 0) == (n, [])
  {
    var last := [(n % 10 + '0' as int) as char];
    assert ReadNumber(last, n / 10) == (n, []) by {
      assert last[1..] == [];
    }
    if n >= 10 {
      DigitsReadBack(n / 10);
      NumberSplits(Digits(n / 10), last, 0);
    } else {
      assert Digits(n) == last;
    }
  }

  lemma AliasReadsBack(prefix: string, n: nat, rest: string)
    requires rest == [] || !IsDigit(rest[0])
    ensures ReadAliasAfter(prefix, prefix + Alias(n) + rest) == Some((n, rest))
  {
    DigitsReadBack(n);
    NumberSplits(Digits(n), rest, 0);
    assert prefix + Alias(n) + rest == (prefix + "p") + (Digits(n) + rest);
    SkipPrefix(prefix + "p", Digits(n) + rest);
  }

  lemma QuotedAfterReadsBack(prefix: string, s: string, rest: string)
    requires !HasControlCharacter(s)
    ensures ReadQuotedAfter(prefix, prefix + EscapeSingleQuoted(s) + rest) == Some((s, rest))
  {
    QuotedTextReadsBack(s, rest);
    var text := EscapeSingleQuoted(s) + rest;
    assert prefix + EscapeSingleQuoted(s) + rest == (prefix + [QUOTE]) + text[1..];
    SkipPrefix(prefix + [QUOTE], text[1..]);
  }

  function ImportOf(e: Entry): Import {
    Import(e.contribution.importPath, e.contribution.exportName)
  }

  lemma PathHasNoControl(s: string)
    requires IsRelativeImport(s)
    ensures !HasControlCharacter(s)
  {
    var start := if "../" <= s then 3 else 2;
    forall i | 0 <= i < |s|
      ensures s[i] as int > MAX_CONTROL_CHAR_CODE
    {
      if i >= start {
        assert s[i] == s[start..][i - start] && IsPathChar(s[i]);
      } else {
        assert s[..start] == "../" || s[..start] == "./";
        assert s[i] == s[..start][i];
      }
    }
  }

  lemma ImportReadsBack(e: Entry)
    requires IsValid(e.contribution)
    ensures ReadImport(ImportLine(e)) == Some((e.index, ImportOf(e)))
  {
    var name, path := e.contribution.exportName, e.contribution.importPath;
    PathHasNoControl(path);
    var afterAlias := " } from " + EscapeSingleQuoted(path) + ";";
    var afterName := " as " + Alias(e.index) + afterAlias;
    assert ImportLine(e) == "import { " + (name + afterName);
    SkipPrefix("import { ", name + afterName);
    IdentifierReadsBack(name, afterName);
    AliasReadsBack(" as ", e.index, afterAlias);
    QuotedAfterReadsBack(" } from ", path, ";");
  }

  lemma EntryReadsBack(e: Entry)
    requires IsValid(e.contribution)
    ensures ReadEntry(KeyLine(e)) == Some((e.contribution.key, e.index)) && KeyLine(e) != GROUP_END
  {
    var key := e.contribution.key;
    var afterKey := ": " + Alias(e.index) + ",";
    assert KeyLine(e) == "      " + EscapeSingleQuoted(key) + afterKey;
    QuotedAfterReadsBack("      ", key, afterKey);
    AliasReadsBack(": ", e.index, ",");
    assert KeyLine(e)[4] == ' ';
  }

  lemma HeaderReadsBack(feature: string)
    requires IsIdentifier(feature)
    ensures ReadHeader(HeaderLine(feature)) == Some(feature) && HeaderLine(feature) != FEATURES_END
  {
    assert HeaderLine(feature) == "    " + (feature + ": {");
    SkipPrefix("    ", feature + ": {");
    IdentifierReadsBack(feature, ": {");
    assert (HeaderLine(feature))[2] == ' ';
  }

  // ---------- the blocks read back ----------

  /** The entries of a group, put one by one. */
  function PutEntries(group: seq<Entry>, read: Object<Import>): Object<Import> {
    if group == [] then read else PutEntries(group[1..], Put(read, group[0].contribution.key, ImportOf(group[0])))
  }

  function PutFeatures(groups: seq<seq<Entry>>, read: Object<Object<Import>>): Object<Object<Import>>
    requires forall g :: 0 <= g < |groups| ==> groups[g] != []
  {
    if groups == [] then read
    else PutFeatures(groups[1..], Put(read, Feature(groups[0]), PutEntries(groups[0], map[])))
  }

  ghost predicate Imported(imports: Imports, entries: seq<Entry>) {
    forall e :: e in entries ==> e.index in imports && imports[e.index] == ImportOf(e)
  }

  ghost predicate ValidEntries(entries: seq<Entry>) {
    forall e :: e in entries ==> IsValid(e.contribution)
  }

  function ImportLines(entries: seq<Entry>): seq<string> {
    seq(|entries|, i requires 0 <= i < |entries| => ImportLine(entries[i]))
  }

  function KeyLines(group: seq<Entry>): seq<string> {
    seq(|group|, i requires 0 <= i < |group| => KeyLine(group[i]))
  }

  /** The entries from the i-th on have been imported on top of what was there. */
  function PutImports(entries: seq<Entry>, imports: Imports): Imports {
    if entries == [] then imports else PutImports(entries[1..], imports[entries[0].index := ImportOf(entries[0])])
  }

  lemma ImportLinesSplit(entries: seq<Entry>, rest: seq<string>)
    requires entries != []
    ensures ImportLines(entries) + rest == [ImportLine(entries[0])] + (ImportLines(entries[1..]) + rest)
  {
  }

  lemma Regroup<T>(all: seq<T>, group: seq<T>, first: T, middle: seq<T>, last: T, b: seq<T>, c: seq<T>)
    requires all == group + b && group == [first] + middle + [last]
    ensures all + c == [first] + (middle + [last] + (b + c))
  {
  }

  lemma GroupLinesAre(group: seq<Entry>)
    requires group != []
    ensures GroupLines(group) == [HeaderLine(Feature(group))] + KeyLines(group) + [GROUP_END]
  {
    assert KeyLines(group) == seq(|group|, i requires 0 <= i < |group| => KeyLine(group[i]));
  }

  lemma GroupLinesSplit(groups: seq<seq<Entry>>, after: seq<string>)
    requires groups != [] && forall g :: 0 <= g < |groups| ==> groups[g] != []
    ensures FeatureLines(groups) + after ==
            [HeaderLine(Feature(groups[0]))] + (KeyLines(groups[0]) + [GROUP_END] + (FeatureLines(groups[1..]) + after))
  {
    GroupLinesAre(groups[0]);
    Regroup(FeatureLines(groups), GroupLines(groups[0]), HeaderLine(Feature(groups[0])), KeyLines(groups[0]), GROUP_END,
            FeatureLines(groups[1..]), after);
  }

  lemma {:induction false} ImportsReadBack(entries: seq<Entry>, rest: seq<string>, imports: Imports)
    requires ValidEntries(entries) && (rest == [] || ReadImport(rest[0]).None?)
    ensures ReadImports(ImportLines(entries) + rest, imports) == (PutImports(entries, imports), rest)
  {
    var lines := ImportLines(entries) + rest;
    if entries == [] {
      assert lines == rest;
    } else {
      assert entries[0] in entries;
      ImportReadsBack(entries[0]);
      ImportLinesSplit(entries, rest);
      ImportsReadBack(entries[1..], rest, imports[entries[0].index := ImportOf(entries[0])]);
    }
  }

  lemma {:induction false} EntriesReadBack(group: seq<Entry>, rest: seq<string>, imports: Imports, read: Object<Import>)
    requires ValidEntries(group) && Imported(imports, group)
    ensures ReadEntries(KeyLines(group) + [GROUP_END] + rest, imports, read) == Some((PutEntries(group, read), rest))
  {
    var lines := KeyLines(group) + [GROUP_END] + rest;
    if group == [] {
      assert lines == [GROUP_END] + rest;
    } else {
      assert group[0] in group;
      EntryReadsBack(group[0]);
      assert lines[1..] == KeyLines(group[1..]) + [GROUP_END] + rest;
      EntriesReadBack(group[1..], rest, imports, Put(read, group[0].contribution.key, ImportOf(group[0])));
    }
  }

  ghost predicate ReadableGroups(groups: seq<seq<Entry>>, imports: Imports) {
    forall g :: 0 <= g < |groups| ==> groups[g] != [] && ValidEntries(groups[g]) && Imported(imports, groups[g])
  }

  lemma {:induction false} FeaturesReadBack(groups: seq<seq<Entry>>, rest: seq<string>, imports: Imports, read: Object<Object<Import>>)
    requires ReadableGroups(groups, imports)
    ensures ReadFeatures(FeatureLines(groups) + [FEATURES_END] + rest, imports, read) == Some((PutFeatures(groups, read), rest))
  {
    assert FeatureLines(groups) + [FEATURES_END] + rest == FeatureLines(groups) + ([FEATURES_END] + rest);
    if groups != [] {
      var group := groups[0];
      assert group[0] in group;
      HeaderReadsBack(Feature(group));
      GroupLinesSplit(groups, [FEATURES_END] + rest);
      EntriesReadBack(group, FeatureLines(groups[1..]) + ([FEATURES_END] + rest), imports, map[]);
      FeaturesReadBack(groups[1..], rest, imports, Put(read, Feature(group), PutEntries(group, map[])));
      assert FeatureLines(groups[1..]) + [FEATURES_END] + rest == FeatureLines(groups[1..]) + ([FEATURES_END] + rest);
    }
  }

  // ---------- what the module holds ----------

  /** The value under a feature and a key. */
  function Lookup(features: Object<Object<Import>>, feature: string, key: string): Option<Import> {
    if feature in features && key in features[feature] then Some(features[feature][key]) else None
  }

  lemma {:induction false} ImportsHold(entries: seq<Entry>, imports: Imports)
    requires forall i, j :: 0 <= i < j < |entries| ==> entries[i].index != entries[j].index
    ensures Imported(PutImports(entries, imports), entries)
    ensures forall n :: (forall e :: e in entries ==> e.index != n) ==>
              (n in PutImports(entries, imports) <==> n in imports) &&
              (n in imports ==> PutImports(entries, imports)[n] == imports[n])
  {
    if entries != [] {
      var first := entries[0];
      ImportsHold(entries[1..], imports[first.index := ImportOf(first)]);
      assert entries == [first] + entries[1..];
      assert forall e :: e in entries[1..] ==> e.index != first.index;
    }
  }

  ghost predicate DistinctKeys(group: seq<Entry>) {
    forall i, j :: 0 <= i < j < |group| ==> group[i].contribution.key != group[j].contribution.key
  }

  ghost predicate DistinctFeatures(groups: seq<seq<Entry>>)
    requires forall g :: 0 <= g < |groups| ==> groups[g] != []
  {
    forall g, h :: 0 <= g < h < |groups| ==> Feature(groups[g]) != Feature(groups[h])
  }

  lemma {:induction false} EntriesHold(group: seq<Entry>, read: Object<Import>, key: string)
    requires DistinctKeys(group)
    ensures var r := PutEntries(group, read);
            && (forall i :: 0 <= i < |group| && group[i].contribution.key == key && key != PROTO ==>
                  key in r && r[key] == ImportOf(group[i]))
            && (key == PROTO || (forall i :: 0 <= i < |group| ==> group[i].contribution.key != key) ==>
                  (key in r <==> key in read) && (key in read ==> r[key] == read[key]))
  {
    if group != [] {
      EntriesHold(group[1..], Put(read, group[0].contribution.key, ImportOf(group[0])), key);
      assert forall i :: 0 < i < |group| ==> group[i] == group[1..][i - 1];
    }
  }

  lemma {:induction false} FeaturesHold(groups: seq<seq<Entry>>, read: Object<Object<Import>>, feature: string)
    requires (forall g :: 0 <= g < |groups| ==> groups[g] != []) && DistinctFeatures(groups)
    ensures var r := PutFeatures(groups, read);
            && (forall g :: 0 <= g < |groups| && Feature(groups[g]) == feature && feature != PROTO ==>
                  feature in r && r[feature] == PutEntries(groups[g], map[]))
            && (feature == PROTO || (forall g :: 0 <= g < |groups| ==> Feature(groups[g]) != feature) ==>
                  (feature in r <==> feature in read) && (feature in read ==> r[feature] == read[feature]))
  {
    if groups != [] {
      FeaturesHold(groups[1..], Put(read, Feature(groups[0]), PutEntries(groups[0], map[])), feature);
      assert forall g :: 0 < g < |groups| ==> groups[g] == groups[1..][g - 1];
    }
  }

  lemma {:induction false} ConcatMember(groups: seq<seq<Entry>>, e: Entry)
    ensures e in Concat(groups) <==> exists g :: 0 <= g < |groups| && e in groups[g]
  {
    if groups != [] {
      var k := |groups| - 1;
      ConcatMember(groups[..k], e);
      assert forall g :: 0 <= g < k ==> groups[..k][g] == groups[g];
    }
  }

  /** A group of ascending entries has ascending keys. */
  lemma {:induction false} GroupAscends(groups: seq<seq<Entry>>, g: nat)
    requires AscendingEntries(Concat(groups)) && g < |groups|
    ensures AscendingEntries(groups[g])
  {
    var k := |groups| - 1;
    var before := Concat(groups[..k]);
    assert Concat(groups) == before + groups[k];
    if g < k {
      assert forall i :: 0 <= i < |before| ==> before[i] == Concat(groups)[i];
      GroupAscends(groups[..k], g);
    } else {
      assert forall i :: 0 <= i < |groups[k]| ==> groups[k][i] == Concat(groups)[|before| + i];
    }
  }

  lemma GroupHasDistinctKeys(group: seq<Entry>)
    requires AscendingEntries(group) && OneFeature(group)
    ensures DistinctKeys(group)
  {
    forall i, j | 0 <= i < j < |group|
      ensures group[i].contribution.key != group[j].contribution.key
    {
      Order(group[i].contribution, group[j].contribution);
    }
  }

  /** The groups of valid contributions that do not conflict. */
  ghost predicate GroupsOf(groups: seq<seq<Entry>>, cs: seq<Contribution>) {
    && (forall g :: 0 <= g < |groups| ==> OneFeature(groups[g]) && DistinctKeys(groups[g]))
    && DistinctFeatures(groups)
    && (forall g, e :: 0 <= g < |groups| && e in groups[g] ==> e.contribution in cs)
    && (forall c :: c in cs ==> exists g, e :: 0 <= g < |groups| && e in groups[g] && e.contribution == c)
  }

  lemma WrittenGroups(cs: seq<Contribution>)
    requires !Conflict(cs)
    ensures GroupsOf(Groups(Resolve(Sequences.Dedup(cs))), cs)
  {
    var entries := Resolve(Sequences.Dedup(cs));
    var groups := Groups(entries);
    ModuleGroups(cs);
    forall g | 0 <= g < |groups| ensures DistinctKeys(groups[g]) {
      GroupAscends(groups, g);
      GroupHasDistinctKeys(groups[g]);
    }
    forall g, h | 0 <= g < h < |groups| ensures Feature(groups[g]) != Feature(groups[h]) {
      Ordering.StringOrder(Feature(groups[g]), Feature(groups[h]));
    }
    forall g, e: Entry | 0 <= g < |groups| && e in groups[g] ensures e.contribution in cs {
      ConcatMember(groups, e);
      var i :| 0 <= i < |entries| && entries[i] == e;
      assert entries[i] == Entry(e.contribution, i);
    }
    forall c | c in cs ensures exists g, e: Entry :: 0 <= g < |groups| && e in groups[g] && e.contribution == c {
      var i :| 0 <= i < |entries| && entries[i] == Entry(c, i);
      assert entries[i] in entries;
      ConcatMember(groups, entries[i]);
    }
  }

  lemma FoundIsContributed(groups: seq<seq<Entry>>, cs: seq<Contribution>, feature: string, key: string)
    requires GroupsOf(groups, cs) && Lookup(PutFeatures(groups, map[]), feature, key).Some?
    ensures feature != PROTO && key != PROTO
    ensures exists c :: c in cs && c.feature == feature && c.key == key
  {
    FeaturesHold(groups, map[], feature);
    var g :| 0 <= g < |groups| && Feature(groups[g]) == feature;
    EntriesHold(groups[g], map[], key);
    var i :| 0 <= i < |groups[g]| && groups[g][i].contribution.key == key;
    assert groups[g][i] in groups[g];
    assert groups[g][i].contribution.feature == feature;
  }

  lemma ContributedIsFound(groups: seq<seq<Entry>>, cs: seq<Contribution>, c: Contribution)
    requires GroupsOf(groups, cs) && c in cs && c.feature != PROTO && c.key != PROTO
    ensures Lookup(PutFeatures(groups, map[]), c.feature, c.key) == Some(Import(c.importPath, c.exportName))
  {
    var g, e :| 0 <= g < |groups| && e in groups[g] && e.contribution == c;
    var i :| 0 <= i < |groups[g]| && groups[g][i] == e;
    assert Feature(groups[g]) == c.feature;
    FeaturesHold(groups, map[], c.feature);
    EntriesHold(groups[g], map[], c.key);
  }

  lemma WrittenIsValid(cs: seq<Contribution>)
    requires AllValid(cs) && !Conflict(cs)
    ensures ValidEntries(Resolve(Sequences.Dedup(cs)))
  {
    var entries := Resolve(Sequences.Dedup(cs));
    ModuleGroups(cs);
    forall e | e in entries ensures IsValid(e.contribution) {
      var i :| 0 <= i < |entries| && entries[i] == e;
      var c := e.contribution;
      assert entries[i] == Entry(c, i);
      assert c in cs;
      var j :| 0 <= j < |cs| && cs[j] == c;
    }
  }

  lemma GroupsAreReadable(entries: seq<Entry>, groups: seq<seq<Entry>>, imports: Imports)
    requires ValidEntries(entries) && Imported(imports, entries) && Partition(groups, entries)
    ensures ReadableGroups(groups, imports)
  {
    forall g, e: Entry | 0 <= g < |groups| && e in groups[g] ensures e in entries {
      ConcatMember(groups, e);
    }
  }

  /** The lines of a module, as the reader takes them apart. */
  lemma ModuleShape(cs: seq<Contribution>)
    ensures var entries := Resolve(cs);
            ModuleLines(cs) == ["// " + MARKER, TYPE_IMPORT] + (ImportLines(entries) +
                                 (OPENING + (FeatureLines(Groups(entries)) + [FEATURES_END] + CLOSING)))
  {
  }

  lemma OpeningIsNoImport()
    ensures ReadImport(OPENING[0]).None?
  {
    assert OPENING[0][0] != "import { "[0];
  }

  lemma BodyIsRead(groups: seq<seq<Entry>>, imports: Imports)
    requires ReadableGroups(groups, imports)
    ensures var body := OPENING + (FeatureLines(groups) + [FEATURES_END] + CLOSING);
            && body[0] == OPENING[0] && OPENING <= body
            && ReadFeatures(body[|OPENING|..], imports, map[]) == Some((PutFeatures(groups, map[]), CLOSING))
  {
    var features := FeatureLines(groups) + [FEATURES_END] + CLOSING;
    assert (OPENING + features)[|OPENING|..] == features;
    FeaturesReadBack(groups, CLOSING, imports, map[]);
  }

  lemma ModuleIsRead(cs: seq<Contribution>)
    requires AllValid(cs) && !Conflict(cs)
    ensures ReadModule(ModuleLines(Sequences.Dedup(cs))) ==
            Some(PutFeatures(Groups(Resolve(Sequences.Dedup(cs))), map[]))
  {
    var entries := Resolve(Sequences.Dedup(cs));
    var groups, imports := Groups(entries), PutImports(entries, map[]);
    WrittenIsValid(cs);
    ImportsHold(entries, map[]);
    ModuleGroups(cs);
    GroupsAreReadable(entries, groups, imports);
    BodyIsRead(groups, imports);
    OpeningIsNoImport();
    var body := OPENING + (FeatureLines(groups) + [FEATURES_END] + CLOSING);
    ModuleShape(Sequences.Dedup(cs));
    var lines := ModuleLines(Sequences.Dedup(cs));
    assert lines[2..] == ImportLines(entries) + body;
    ImportsReadBack(entries, body, map[]);
  }

  /** Evaluating the written module gives, under each feature and key but `__proto__`, the contribution made for it and nothing else. */
  lemma ModuleReadsBack(cs: seq<Contribution>, feature: string, key: string)
    requires AllValid(cs) && !Conflict(cs)
    ensures ReadModule(ModuleLines(Sequences.Dedup(cs))).Some?
    ensures var v := Lookup(ReadModule(ModuleLines(Sequences.Dedup(cs))).value, feature, key);
            && (v.Some? <==> feature != PROTO && key != PROTO && exists c :: c in cs && c.feature == feature && c.key == key)
            && (forall c :: c in cs && c.feature == feature && c.key == key && v.Some? ==>
                  v.value == Import(c.importPath, c.exportName))
  {
    ModuleIsRead(cs);
    WrittenGroups(cs);
    var groups := Groups(Resolve(Sequences.Dedup(cs)));
    if Lookup(PutFeatures(groups, map[]), feature, key).Some? { FoundIsContributed(groups, cs, feature, key); }
    forall c | c in cs && c.feature == feature && c.key == key && feature != PROTO && key != PROTO
      ensures Lookup(PutFeatures(groups, map[]), feature, key) == Some(Import(c.importPath, c.exportName))
    {
      ContributedIsFound(groups, cs, c);
    }
  }

  /** Every contribution is found in the written module exactly when none has `__proto__` for its feature or its key. */
  lemma EveryContributionReadIff(cs: seq<Contribution>)
    requires AllValid(cs) && !Conflict(cs)
    ensures ReadModule(ModuleLines(Sequences.Dedup(cs))).Some?
    ensures (forall c :: c in cs ==> Lookup(ReadModule(ModuleLines(Sequences.Dedup(cs))).value, c.feature, c.key) ==
                                     Some(Import(c.importPath, c.exportName))) <==>
            (forall c :: c in cs ==> c.feature != PROTO && c.key != PROTO)
  {
    ModuleIsRead(cs);
    var features := ReadModule(ModuleLines(Sequences.Dedup(cs))).value;
    forall c | c in cs
      ensures Lookup(features, c.feature, c.key) == Some(Import(c.importPath, c.exportName)) <==>
              c.feature != PROTO && c.key != PROTO
    {
      ModuleReadsBack(cs, c.feature, c.key);
    }
  }
}
