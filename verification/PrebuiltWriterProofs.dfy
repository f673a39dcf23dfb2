/** The written module depends only on which contributions there are, not on their order or repetition. */
module PrebuiltWriterProofs {
  import opened Wrappers
  import Ordering
  import Sequences
  import opened PrebuiltWriter

  // ---------- the order of contributions ----------

  lemma Order(a: Contribution, b: Contribution)
    ensures Less(a, b) ==> !Less(b, a) && !SameSlot(a, b)
    ensures !SameSlot(a, b) ==> Less(a, b) || Less(b, a)
  {
    Ordering.StringOrder(a.feature, b.feature);
    Ordering.StringOrder(a.key, b.key);
  }

  lemma Transitive(a: Contribution, b: Contribution, c: Contribution)
    requires Less(a, b) && Less(b, c)
    ensures Less(a, c)
  {
    Ordering.StringOrder(a.feature, b.feature);
    Ordering.StringOrder(b.feature, c.feature);
    if a.feature != b.feature && b.feature != c.feature { Ordering.StringTransitive(a.feature, b.feature, c.feature); }
    else if a.feature == b.feature == c.feature { Ordering.StringTransitive(a.key, b.key, c.key); }
    Ordering.StringOrder(a.feature, c.feature);
  }

  // ---------- sorting contributions with distinct slots ----------

  predicate Ascending(cs: seq<Contribution>) {
    forall i, j :: 0 <= i < j < |cs| ==> Less(cs[i], cs[j])
  }

  predicate DistinctSlots(cs: seq<Contribution>) {
    forall i, j :: 0 <= i < j < |cs| ==> !SameSlot(cs[i], cs[j])
  }

  lemma NotAfterIsTotal()
    ensures Ordering.TotalPreorder(NotAfter)
  {
    forall a: Contribution, b: Contribution
      ensures NotAfter(a, b) || NotAfter(b, a)
    {
      Order(a, b);
    }
    forall a: Contribution, b: Contribution, c: Contribution | NotAfter(a, b) && NotAfter(b, c)
      ensures NotAfter(a, c)
    {
      NotAfterTransitive(a, b, c);
    }
  }

  lemma NotAfterTransitive(a: Contribution, b: Contribution, c: Contribution)
    requires !Less(b, a) && !Less(c, b)
    ensures !Less(c, a)
  {
    Order(a, b);
    Order(b, c);
    if Less(c, a) {
      if Less(a, b) {
        Transitive(c, a, b);
      } else if Less(b, c) {
        Transitive(b, c, a);
      }
    }
  }

  lemma SortAscends(cs: seq<Contribution>)
    requires DistinctSlots(cs)
    ensures Ascending(SortContributions(cs))
    ensures forall x :: x in SortContributions(cs) <==> x in cs
  {
    NotAfterIsTotal();
    var sorted := SortContributions(cs);
    Ordering.SortSorts(cs, NotAfter);
    assert Sequences.Distinct(cs);
    Ordering.SortDistinct(cs, NotAfter);
    forall i, j | 0 <= i < j < |sorted|
      ensures Less(sorted[i], sorted[j])
    {
      assert NotAfter(sorted[i], sorted[j]) && sorted[i] != sorted[j];
      assert sorted[i] in sorted && sorted[j] in sorted;
      Order(sorted[i], sorted[j]);
    }
  }

  /** The least element comes first. */
  lemma SameFirst(a: seq<Contribution>, b: seq<Contribution>)
    requires Ascending(a) && Ascending(b) && a != [] && forall x :: x in a <==> x in b
    ensures b != [] && a[0] == b[0]
  {
    assert a[0] in a && a[0] in b;
    var i :| 0 <= i < |b| && b[i] == a[0];
    assert b[0] in b && b[0] in a;
    var j :| 0 <= j < |a| && a[j] == b[0];
    Order(a[0], b[0]);
    assert !(i > 0 && j > 0);
  }

  /** Strictly ascending sequences with the same elements are the same sequence. */
  lemma {:induction false} AscendingUnique(a: seq<Contribution>, b: seq<Contribution>)
    requires Ascending(a) && Ascending(b) && forall x :: x in a <==> x in b
    ensures a == b
  {
    if a == [] {
      Sequences.EmptyOrMember(b);
    } else {
      SameFirst(a, b);
      forall x
        ensures x in a[1..] <==> x in b[1..]
      {
        TailMembers(a, x);
        TailMembers(b, x);
      }
      AscendingUnique(a[1..], b[1..]);
      assert a == [a[0]] + a[1..] && b == [b[0]] + b[1..];
    }
  }

  lemma TailMembers(a: seq<Contribution>, x: Contribution)
    requires Ascending(a) && a != []
    ensures x in a[1..] <==> x in a && x != a[0]
  {
    assert a == [a[0]] + a[1..];
    if x in a[1..] {
      var i :| 0 <= i < |a[1..]| && a[1..][i] == x;
      assert a[i + 1] == x;
      Order(a[0], a[i + 1]);
    }
  }

  // ---------- the module is canonical ----------

  ghost predicate SameContributions(a: seq<Contribution>, b: seq<Contribution>) {
    forall c :: c in a <==> c in b
  }

  lemma ConflictInSet(a: seq<Contribution>)
    ensures Conflict(a) <==> exists c, d :: c in a && d in a && SameSlot(c, d) && c != d
  {
    if c, d :| c in a && d in a && SameSlot(c, d) && c != d {
      var i :| 0 <= i < |a| && a[i] == c;
      var j :| 0 <= j < |a| && a[j] == d;
      assert i < j || j < i;
    }
  }

  lemma FirstOccurrencesDistinct(cs: seq<Contribution>)
    requires !Conflict(cs)
    ensures DistinctSlots(Sequences.Dedup(cs))
  {
    Sequences.DedupAre(cs);
    var kept := Sequences.Dedup(cs);
    ConflictInSet(cs);
    forall i, j | 0 <= i < j < |kept|
      ensures !SameSlot(kept[i], kept[j])
    {
      assert kept[i] in cs && kept[j] in cs;
    }
  }

  /** Any permutation and repetition of the same contributions conflicts alike and writes the same module. */
  lemma ModuleIsCanonical(a: seq<Contribution>, b: seq<Contribution>)
    requires SameContributions(a, b)
    ensures Conflict(a) <==> Conflict(b)
    ensures !Conflict(a) ==> ModuleLines(Sequences.Dedup(a)) == ModuleLines(Sequences.Dedup(b))
  {
    ConflictInSet(a);
    ConflictInSet(b);
    if !Conflict(a) {
      FirstOccurrencesDistinct(a);
      FirstOccurrencesDistinct(b);
      Sequences.DedupAre(a);
      Sequences.DedupAre(b);
      SortAscends(Sequences.Dedup(a));
      SortAscends(Sequences.Dedup(b));
      AscendingUnique(SortContributions(Sequences.Dedup(a)), SortContributions(Sequences.Dedup(b)));
    }
  }

  // ---------- one group per feature ----------

  function Concat(groups: seq<seq<Entry>>): seq<Entry> {
    if groups == [] then [] else Concat(groups[..|groups| - 1]) + groups[|groups| - 1]
  }

  predicate AscendingEntries(entries: seq<Entry>) {
    forall i, j :: 0 <= i < j < |entries| ==> Less(entries[i].contribution, entries[j].contribution)
  }

  predicate OneFeature(group: seq<Entry>) {
    group != [] && forall i :: 0 <= i < |group| ==> group[i].contribution.feature == Feature(group)
  }

  /** Groups split the entries in order, each has one feature, and no feature has two groups. */
  predicate Partition(groups: seq<seq<Entry>>, entries: seq<Entry>) {
    && Concat(groups) == entries
    && (forall g :: 0 <= g < |groups| ==> OneFeature(groups[g]))
    && (forall g, h :: 0 <= g < h < |groups| ==> Ordering.StringLess(Feature(groups[g]), Feature(groups[h])))
  }

  lemma ExtendLast(groups: seq<seq<Entry>>, entries: seq<Entry>, e: Entry)
    requires Partition(groups, entries) && groups != []
    requires Feature(groups[|groups| - 1]) == e.contribution.feature
    ensures Partition(groups[|groups| - 1 := groups[|groups| - 1] + [e]], entries + [e])
  {
    var n := |groups|;
    var extended := groups[n - 1 := groups[n - 1] + [e]];
    assert extended[..n - 1] == groups[..n - 1];
  }

  lemma OpenGroup(groups: seq<seq<Entry>>, entries: seq<Entry>, e: Entry)
    requires Partition(groups, entries)
    requires groups != [] ==> Ordering.StringLess(Feature(groups[|groups| - 1]), e.contribution.feature)
    ensures Partition(groups + [[e]], entries + [e])
  {
    var n := |groups|;
    assert (groups + [[e]])[..n] == groups;
    forall g | 0 <= g < n
      ensures Ordering.StringLess(Feature(groups[g]), e.contribution.feature)
    {
      if g < n - 1 { Ordering.StringTransitive(Feature(groups[g]), Feature(groups[n - 1]), e.contribution.feature); }
    }
  }

  /** For sorted entries every feature forms exactly one group. */
  lemma {:induction false} GroupsPartition(entries: seq<Entry>)
    requires AscendingEntries(entries)
    ensures Partition(Groups(entries), entries)
  {
    if entries != [] {
      var init, e := entries[..|entries| - 1], entries[|entries| - 1];
      GroupsPartition(init);
      var before := Groups(init);
      assert entries == init + [e];
      if before != [] && Feature(before[|before| - 1]) == e.contribution.feature { ExtendLast(before, init, e); }
      else { OpenGroup(before, init, e); }
    }
  }

  /** The groups written for valid contributions are those of GroupsPartition. */
  lemma ModuleGroups(cs: seq<Contribution>)
    requires !Conflict(cs)
    ensures var entries := Resolve(Sequences.Dedup(cs));
            && AscendingEntries(entries) && Partition(Groups(entries), entries)
            && (forall c :: c in cs <==> exists i :: 0 <= i < |entries| && entries[i] == Entry(c, i))
  {
    FirstOccurrencesDistinct(cs);
    Sequences.DedupAre(cs);
    SortAscends(Sequences.Dedup(cs));
    var sorted, entries := SortContributions(Sequences.Dedup(cs)), Resolve(Sequences.Dedup(cs));
    GroupsPartition(entries);
    forall c
      ensures c in cs <==> exists i :: 0 <= i < |entries| && entries[i] == Entry(c, i)
    {
      if c in cs {
        assert c in sorted;
        var i :| 0 <= i < |sorted| && sorted[i] == c;
        assert entries[i] == Entry(c, i);
      }
      if i :| 0 <= i < |entries| && entries[i] == Entry(c, i) { assert sorted[i] in sorted; }
    }
  }

  // ---------- quoting ----------

  /** The line breaks a JavaScript string literal may not hold as they are. */
  predicate IsLineBreak(c: char) {
    c == '\n' || c == '\r'
  }

  predicate HasLineBreak(s: string) {
    exists i :: 0 <= i < |s| && IsLineBreak(s[i])
  }

  /** Reads a single-quoted literal up to its closing quote: its value and the text after it.  Other escapes are never written. */
  function ReadQuoted(text: string): Option<(string, string)> {
    if text == [] || IsLineBreak(text[0]) then None
    else if text[0] == QUOTE then Some(([], text[1..]))
    else
      var skip := if text[0] == BACKSLASH then 1 else 0;
      if |text| <= skip || (skip == 1 && text[1] != QUOTE && text[1] != BACKSLASH) then None
      else
        match ReadQuoted(text[skip + 1..])
        case Some((value, rest)) => Some(([text[skip]] + value, rest))
        case None => None
  }

  function EscapeChar(c: char): string {
    if c == BACKSLASH then [BACKSLASH, BACKSLASH] else if c == QUOTE then [BACKSLASH, QUOTE] else [c]
  }

  lemma {:induction false} ReplaceConcat(a: string, b: string, c: char, with_: string)
    ensures ReplaceAll(a + b, c, with_) == ReplaceAll(a, c, with_) + ReplaceAll(b, c, with_)
  {
    if a == [] {
      assert a + b == b;
    } else {
      assert (a + b)[1..] == a[1..] + b;
      ReplaceConcat(a[1..], b, c, with_);
    }
  }

  function Escaped(s: string): string {
    ReplaceAll(ReplaceAll(s, BACKSLASH, [BACKSLASH, BACKSLASH]), QUOTE, [BACKSLASH, QUOTE])
  }

  lemma EscapedStep(s: string)
    requires s != []
    ensures Escaped(s) == EscapeChar(s[0]) + Escaped(s[1..])
  {
    var once := ReplaceAll(s, BACKSLASH, [BACKSLASH, BACKSLASH]);
    var head := if s[0] == BACKSLASH then [BACKSLASH, BACKSLASH] else [s[0]];
    var tail := ReplaceAll(s[1..], BACKSLASH, [BACKSLASH, BACKSLASH]);
    ReplaceConcat(head, tail, QUOTE, [BACKSLASH, QUOTE]);
    assert ReplaceAll(head, QUOTE, [BACKSLASH, QUOTE]) == EscapeChar(s[0]) by {
      assert head[1..] == [] || (head[1..] == [BACKSLASH] && head[1..][1..] == []);
    }
  }

  lemma {:induction false} QuotedReadsBack(s: string, rest: string)
    ensures ReadQuoted(Escaped(s) + [QUOTE] + rest) == if HasLineBreak(s) then None else Some((s, rest))
  {
    if s == [] {
      assert Escaped(s) + [QUOTE] + rest == [QUOTE] + rest;
    } else {
      EscapedStep(s);
      QuotedReadsBack(s[1..], rest);
      var after := Escaped(s[1..]) + [QUOTE] + rest;
      var text := Escaped(s) + [QUOTE] + rest;
      assert text == EscapeChar(s[0]) + after;
      LineBreakSplit(s);
      assert s == [s[0]] + s[1..];
    }
  }

  lemma LineBreakSplit(s: string)
    requires s != []
    ensures HasLineBreak(s) <==> IsLineBreak(s[0]) || HasLineBreak(s[1..])
  {
    if i :| 0 <= i < |s[1..]| && IsLineBreak(s[1..][i]) { assert s[i + 1] == s[1..][i]; }
    if i :| 0 <= i < |s| && IsLineBreak(s[i]) {
      if i > 0 { assert s[1..][i - 1] == s[i]; }
    }
  }

  /**
   A quoted value reads back as itself, wherever it stands, exactly when it holds no line break: no key
   or path can end its literal early, and one that passed validation is read back.
   */
  lemma QuotedTextReadsBack(s: string, rest: string)
    ensures var text := EscapeSingleQuoted(s) + rest;
            && text[0] == QUOTE
            && (ReadQuoted(text[1..]) == Some((s, rest)) <==> !HasLineBreak(s))
            && (!HasControlCharacter(s) ==> ReadQuoted(text[1..]) == Some((s, rest)))
  {
    QuotedReadsBack(s, rest);
    assert EscapeSingleQuoted(s) + rest == [QUOTE] + (Escaped(s) + [QUOTE] + rest);
  }
}
