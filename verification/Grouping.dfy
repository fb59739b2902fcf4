/** Grouping of log lines by signature and the choice of the top groups (collectors/loki.py). */
module Grouping {
  import opened Common

  /** A raw line after masking and parsing, which are not part of this model. */
  datatype Line = Line(signature: string, sample: string)

  /** One entry of the dict of lists. Entries stay in insertion order, as in Python. */
  datatype Group = Group(signature: string, lines: seq<string>)

  // ---------------------------------------------------------------- what the loops compute

  function Flatten<T>(streams: seq<seq<T>>): seq<T> {
    if streams == [] then [] else Flatten(streams[..|streams| - 1]) + Last(streams)
  }

  /** grouped[signature].append(sample) on a defaultdict(list). */
  function AddLine(groups: seq<Group>, l: Line): seq<Group> {
    if groups == [] then [Group(l.signature, [l.sample])]
    else if groups[0].signature == l.signature
      then [Group(l.signature, groups[0].lines + [l.sample])] + groups[1..]
    else [groups[0]] + AddLine(groups[1..], l)
  }

  function GroupsOf(lines: seq<Line>): seq<Group> {
    if lines == [] then [] else AddLine(GroupsOf(lines[..|lines| - 1]), Last(lines))
  }

  function TotalLines(groups: seq<Group>): nat {
    if groups == [] then 0 else |groups[0].lines| + TotalLines(groups[1..])
  }

  lemma {:induction false} AddLineTotal(groups: seq<Group>, l: Line)
    ensures TotalLines(AddLine(groups, l)) == TotalLines(groups) + 1
  {
    if groups != [] && groups[0].signature != l.signature {
      AddLineTotal(groups[1..], l);
    }
  }

  /** The sum the loop recomputes is the number of lines it has grouped. */
  lemma {:induction false} TotalIsLineCount(lines: seq<Line>)
    ensures TotalLines(GroupsOf(lines)) == |lines|
  {
    if lines != [] {
      TotalIsLineCount(lines[..|lines| - 1]);
      AddLineTotal(GroupsOf(lines[..|lines| - 1]), Last(lines));
    }
  }

  lemma GroupsOfPushed(lines: seq<Line>, l: Line)
    ensures GroupsOf(lines + [l]) == AddLine(GroupsOf(lines), l)
  {
    assert (lines + [l])[..|lines|] == lines;
  }

  // ---------------------------------------------------------------- the loops

  /** Progress of a nested loop over streams: everything before stream i, then j lines of it. */
  lemma FlattenPrefix<T>(streams: seq<seq<T>>, i: nat)
    requires i < |streams|
    ensures Flatten(streams[..i + 1]) == Flatten(streams[..i]) + streams[i]
  {
    assert streams[..i + 1][..i] == streams[..i];
  }

  lemma {:induction false} FlattenStartsWith<T>(streams: seq<seq<T>>, i: nat)
    requires i <= |streams|
    ensures Flatten(streams[..i]) <= Flatten(streams)
    decreases |streams| - i
  {
    if i == |streams| {
      assert streams[..i] == streams;
    } else {
      FlattenPrefix(streams, i);
      FlattenStartsWith(streams, i + 1);
    }
  }

  /** One more line is taken while the limit is not reached; after that nothing more is. */
  lemma TakeStep<T>(before: seq<T>, values: seq<T>, j: nat, limit: nat)
    requires j < |values|
    ensures var used := Take(before + values[..j], limit);
            if |used| < limit then Take(before + values[..j + 1], limit) == used + [values[j]]
            else Take(before + values, limit) == used
  {
    assert before + values[..j + 1] == (before + values[..j]) + [values[j]];
    assert before + values == (before + values[..j]) + values[j..];
  }

  /** The application loop: a break that re-reads the total and leaves one stream at a time. */
  method GroupApplication(streams: seq<seq<Line>>, limit: nat) returns (grouped: seq<Group>)
    ensures grouped == GroupsOf(Take(Flatten(streams), limit))
  {
    grouped := [];
    ghost var used: seq<Line> := [];
    for i := 0 to |streams|
      invariant grouped == GroupsOf(used) && used == Take(Flatten(streams[..i]), limit)
    {
      FlattenPrefix(streams, i);
      ghost var before := Flatten(streams[..i]);
      var values := streams[i];
      assert before + values[..0] == before && before + values[..|values|] == before + values;
      for j := 0 to |values|
        invariant grouped == GroupsOf(used) && used == Take(before + values[..j], limit)
      {
        hide GroupsOf, AddLine, Flatten, TotalLines, Take;
        TakeStep(before, values, j, limit);
        TotalIsLineCount(used);
        if TotalLines(grouped) >= limit { break; }
        GroupsOfPushed(used, values[j]);
        grouped := AddLine(grouped, values[j]);
        used := used + [values[j]];
      }
      assert used == Take(before + values, limit);
    }
    assert streams[..|streams|] == streams;
  }

  /** The lines of a list none of which failed to parse. */
  function Parsed(lines: seq<Option<Line>>): seq<Line>
    requires AllParse(lines)
  {
    seq(|lines|, i requires 0 <= i < |lines| => lines[i].value)
  }

  predicate AllParse(lines: seq<Option<Line>>) {
    forall i | 0 <= i < |lines| :: lines[i].Some?
  }

  lemma ParsedPushed(lines: seq<Option<Line>>, l: Option<Line>)
    requires AllParse(lines) && l.Some?
    ensures AllParse(lines + [l]) && Parsed(lines + [l]) == Parsed(lines) + [l.value]
  {
  }

  /** A line that fails to parse within the limit spoils everything that follows. */
  lemma Spoiled(streams: seq<seq<Option<Line>>>, i: nat, j: nat, limit: nat)
    requires i < |streams| && j < |streams[i]| && streams[i][j].None?
    requires |Flatten(streams[..i])| + j < limit
    ensures !AllParse(Take(Flatten(streams), limit))
  {
    FlattenPrefix(streams, i);
    FlattenStartsWith(streams, i + 1);
    var at := |Flatten(streams[..i])| + j;
    assert Flatten(streams)[at] == Flatten(streams[..i + 1])[at];
    assert Take(Flatten(streams), limit)[at].None?;
  }

  /** The MySQL loop: a counter instead of the sum, and a line that may fail to parse. */
  method GroupMysql(streams: seq<seq<Option<Line>>>, limit: nat) returns (grouped: Option<seq<Group>>)
    ensures grouped.Some? <==> AllParse(Take(Flatten(streams), limit))
    ensures grouped.Some? ==> grouped.value == GroupsOf(Parsed(Take(Flatten(streams), limit)))
  {
    var groups := [];
    var observed := 0;
    ghost var used: seq<Option<Line>> := [];
    for i := 0 to |streams|
      invariant used == Take(Flatten(streams[..i]), limit) && observed == |used|
      invariant AllParse(used) && groups == GroupsOf(Parsed(used))
    {
      FlattenPrefix(streams, i);
      ghost var before := Flatten(streams[..i]);
      var values := streams[i];
      assert before + values[..0] == before && before + values[..|values|] == before + values;
      for j := 0 to |values|
        invariant used == Take(before + values[..j], limit) && observed == |used|
        invariant AllParse(used) && groups == GroupsOf(Parsed(used))
      {
        hide GroupsOf, AddLine, Flatten, Parsed, AllParse, Take;
        TakeStep(before, values, j, limit);
        if observed >= limit { break; }
        observed := observed + 1;
        if values[j].None? {
          Spoiled(streams, i, j, limit);
          return None;
        }
        ParsedPushed(used, values[j]);
        GroupsOfPushed(Parsed(used), values[j].value);
        groups := AddLine(groups, values[j].value);
        used := used + [values[j]];
      }
      assert used == Take(before + values, limit);
    }
    assert streams[..|streams|] == streams;
    return Some(groups);
  }

  // ---------------------------------------------------------------- what a group is

  function Signatures(lines: seq<Line>): seq<string> {
    seq(|lines|, i requires 0 <= i < |lines| => lines[i].signature)
  }

  function SamplesOf(lines: seq<Line>, signature: string): seq<string> {
    if lines == [] then []
    else SamplesOf(lines[..|lines| - 1], signature)
         + if Last(lines).signature == signature then [Last(lines).sample] else []
  }

  ghost predicate DistinctSignatures(groups: seq<Group>) {
    forall i, j | 0 <= i < j < |groups| :: groups[i].signature != groups[j].signature
  }

  /** What a dict of lists holds for a key; absent keys hold nothing. */
  function Lookup(groups: seq<Group>, signature: string): seq<string> {
    if groups == [] then []
    else if groups[0].signature == signature then groups[0].lines
    else Lookup(groups[1..], signature)
  }

  lemma {:induction false} AddLineLookup(groups: seq<Group>, l: Line, signature: string)
    ensures Lookup(AddLine(groups, l), signature) ==
            Lookup(groups, signature) + if signature == l.signature then [l.sample] else []
  {
    if groups != [] && groups[0].signature != l.signature {
      AddLineLookup(groups[1..], l, signature);
    }
  }

  ghost predicate HasSignature(groups: seq<Group>, signature: string) {
    exists i :: 0 <= i < |groups| && groups[i].signature == signature
  }

  lemma {:induction false} AddLineShape(groups: seq<Group>, l: Line)
    requires DistinctSignatures(groups) && forall g | g in groups :: g.lines != []
    ensures DistinctSignatures(AddLine(groups, l)) && forall g | g in AddLine(groups, l) :: g.lines != []
    ensures forall g | g in AddLine(groups, l) :: g.signature == l.signature || HasSignature(groups, g.signature)
  {
    if groups != [] && groups[0].signature != l.signature {
      var tail := groups[1..];
      AddLineShape(tail, l);
      forall g | g in AddLine(tail, l) ensures g.signature != groups[0].signature {
        if g.signature != l.signature {
          var i :| 0 <= i < |tail| && tail[i].signature == g.signature;
          assert groups[i + 1] == tail[i];
        }
      }
      forall g | g in AddLine(groups, l) && g.signature != l.signature ensures HasSignature(groups, g.signature) {
        if g != groups[0] {
          assert g in AddLine(tail, l);
          var i :| 0 <= i < |tail| && tail[i].signature == g.signature;
          assert groups[i + 1].signature == g.signature;
        }
      }
    } else if groups != [] {
      forall g | g in AddLine(groups, l) && g.signature != l.signature ensures HasSignature(groups, g.signature) {
        var i :| 0 <= i < |groups| - 1 && groups[1..][i] == g;
        assert groups[i + 1] == g;
      }
    }
  }

  lemma {:induction false} LookupFinds(groups: seq<Group>, i: nat)
    requires DistinctSignatures(groups) && i < |groups|
    ensures Lookup(groups, groups[i].signature) == groups[i].lines
  {
    if i > 0 {
      LookupFinds(groups[1..], i - 1);
    }
  }

  lemma {:induction false} LookupInverse(groups: seq<Group>, signature: string) returns (i: nat)
    requires Lookup(groups, signature) != []
    ensures i < |groups| && groups[i] == Group(signature, Lookup(groups, signature))
  {
    if groups[0].signature == signature {
      i := 0;
    } else {
      i := LookupInverse(groups[1..], signature);
      i := i + 1;
    }
  }

  lemma {:induction false} GroupsLookup(lines: seq<Line>, signature: string)
    ensures Lookup(GroupsOf(lines), signature) == SamplesOf(lines, signature)
    ensures DistinctSignatures(GroupsOf(lines)) && forall g | g in GroupsOf(lines) :: g.lines != []
  {
    if lines != [] {
      GroupsLookup(lines[..|lines| - 1], signature);
      AddLineLookup(GroupsOf(lines[..|lines| - 1]), Last(lines), signature);
      AddLineShape(GroupsOf(lines[..|lines| - 1]), Last(lines));
    }
  }

  /** The groups are, once each, the signatures that occur with their samples in line order. */
  lemma GroupsAreExact(lines: seq<Line>, g: Group)
    ensures g in GroupsOf(lines) <==> g.lines != [] && g.lines == SamplesOf(lines, g.signature)
    ensures Distinct(GroupsOf(lines)) && DistinctSignatures(GroupsOf(lines))
  {
    GroupsLookup(lines, g.signature);
    if g in GroupsOf(lines) {
      var i :| 0 <= i < |GroupsOf(lines)| && GroupsOf(lines)[i] == g;
      LookupFinds(GroupsOf(lines), i);
    }
    if g.lines != [] && g.lines == SamplesOf(lines, g.signature) {
      var i := LookupInverse(GroupsOf(lines), g.signature);
    }
  }

  lemma {:induction false} SampleCount(lines: seq<Line>, signature: string)
    ensures |SamplesOf(lines, signature)| == multiset(Signatures(lines))[signature]
  {
    if lines != [] {
      var front := lines[..|lines| - 1];
      SampleCount(front, signature);
      assert Signatures(lines) == Signatures(front) + [Last(lines).signature];
    }
  }

  // ---------------------------------------------------------------- sorting and the top 20

  /** The sort key (-len(lines), signature). */
  predicate Precedes(a: Group, b: Group) {
    |a.lines| > |b.lines| || (|a.lines| == |b.lines| && Less(a.signature, b.signature))
  }

  function InsertSorted(g: Group, sorted: seq<Group>): seq<Group> {
    if sorted == [] || Precedes(g, sorted[0]) then [g] + sorted else [sorted[0]] + InsertSorted(g, sorted[1..])
  }

  /** Python's sorted with that key. */
  function SortGroups(groups: seq<Group>): seq<Group> {
    if groups == [] then [] else InsertSorted(Last(groups), SortGroups(groups[..|groups| - 1]))
  }

  ghost predicate StrictlySorted(groups: seq<Group>) {
    forall i, j | 0 <= i < j < |groups| :: Precedes(groups[i], groups[j])
  }

  lemma PrecedesTransitive(a: Group, b: Group, c: Group)
    requires Precedes(a, b) && Precedes(b, c)
    ensures Precedes(a, c)
  {
    if |a.lines| == |b.lines| == |c.lines| {
      LessTransitive(a.signature, b.signature, c.signature);
    }
  }

  lemma {:induction false} InsertSortedKeeps(g: Group, sorted: seq<Group>)
    requires StrictlySorted(sorted) && forall h | h in sorted :: h.signature != g.signature
    ensures StrictlySorted(InsertSorted(g, sorted))
    ensures multiset(InsertSorted(g, sorted)) == multiset(sorted) + multiset{g}
  {
    if sorted != [] {
      var tail := sorted[1..];
      assert sorted == [sorted[0]] + tail;
      if Precedes(g, sorted[0]) {
        forall j | 0 < j < |sorted| ensures Precedes(g, sorted[j]) {
          PrecedesTransitive(g, sorted[0], sorted[j]);
        }
      } else {
        LessTrichotomy(g.signature, sorted[0].signature);
        InsertSortedKeeps(g, tail);
        forall h | h in InsertSorted(g, tail) ensures Precedes(sorted[0], h) {
          assert h in multiset(InsertSorted(g, tail));
          assert h == g || h in tail;
        }
      }
    }
  }

  /** The result of sorted: the same groups, in strict order of the key. */
  lemma {:induction false} SortGroupsSorts(groups: seq<Group>)
    requires DistinctSignatures(groups)
    ensures StrictlySorted(SortGroups(groups)) && multiset(SortGroups(groups)) == multiset(groups)
  {
    if groups != [] {
      var front := groups[..|groups| - 1];
      assert groups == front + [Last(groups)];
      SortGroupsSorts(front);
      forall h | h in SortGroups(front) ensures h.signature != Last(groups).signature {
        assert h in multiset(front);
      }
      InsertSortedKeeps(Last(groups), SortGroups(front));
    }
  }

  const TOP := 20

  function TopGroups(lines: seq<Line>): seq<Group> {
    Take(SortGroups(GroupsOf(lines)), TOP)
  }

  lemma SortedGroups(lines: seq<Line>)
    ensures var sorted := SortGroups(GroupsOf(lines));
            && StrictlySorted(sorted) && |sorted| == |GroupsOf(lines)|
            && multiset(sorted) == multiset(GroupsOf(lines))
            && forall g :: g in sorted <==> g in GroupsOf(lines)
  {
    var groups := GroupsOf(lines);
    GroupsLookup(lines, "");
    SortGroupsSorts(groups);
    var sorted := SortGroups(groups);
    assert |multiset(sorted)| == |multiset(groups)|;
    forall g ensures g in sorted <==> g in groups {
      assert g in sorted <==> g in multiset(sorted);
      assert g in groups <==> g in multiset(groups);
    }
  }

  /** Kept groups are exact, in order, and as many as there are up to 20. */
  lemma TopGroupsAreExact(lines: seq<Line>)
    ensures |TopGroups(lines)| == Min(TOP, |GroupsOf(lines)|) && StrictlySorted(TopGroups(lines))
    ensures forall g | g in TopGroups(lines) :: g.lines != [] && g.lines == SamplesOf(lines, g.signature)
  {
    SortedGroups(lines);
    forall g | g in TopGroups(lines) ensures g.lines != [] && g.lines == SamplesOf(lines, g.signature) {
      assert g in SortGroups(GroupsOf(lines));
      GroupsAreExact(lines, g);
    }
  }

  /** Every dropped group comes after every kept one: it has no more lines. */
  lemma TopGroupsAreLargest(lines: seq<Line>, dropped: Group)
    requires dropped in GroupsOf(lines) && dropped !in TopGroups(lines)
    ensures |TopGroups(lines)| == TOP
    ensures forall g | g in TopGroups(lines) :: Precedes(g, dropped) && |g.lines| >= |dropped.lines|
  {
    SortedGroups(lines);
    var sorted, top := SortGroups(GroupsOf(lines)), TopGroups(lines);
    var k :| 0 <= k < |sorted| && sorted[k] == dropped;
    assert forall i | 0 <= i < |top| :: top[i] == sorted[i] && sorted[i] in top;
  }

  // ---------------------------------------------------------------- order of lines does not matter

  datatype Entry = Entry(signature: string, count: nat)

  /** The (signature, count) list of sorted groups. */
  function Entries(groups: seq<Group>): seq<Entry> {
    seq(|groups|, i requires 0 <= i < |groups| => Entry(groups[i].signature, |groups[i].lines|))
  }

  predicate EntryPrecedes(a: Entry, b: Entry) {
    a.count > b.count || (a.count == b.count && Less(a.signature, b.signature))
  }

  ghost predicate EntriesSorted(es: seq<Entry>) {
    forall i, j | 0 <= i < j < |es| :: EntryPrecedes(es[i], es[j])
  }

  lemma EntryPrecedesAsymmetric(a: Entry, b: Entry)
    ensures !(EntryPrecedes(a, b) && EntryPrecedes(b, a)) && !EntryPrecedes(a, a)
  {
    LessTrichotomy(a.signature, b.signature);
    LessTrichotomy(a.signature, a.signature);
  }

  lemma SortedTail(a: seq<Entry>, e: Entry)
    requires EntriesSorted(a) && a != []
    ensures e in a[1..] <==> e in a && e != a[0]
  {
    assert a == [a[0]] + a[1..];
    EntryPrecedesAsymmetric(e, e);
    if e in a[1..] {
      var i :| 0 <= i < |a| - 1 && a[1..][i] == e;
      assert EntryPrecedes(a[0], a[i + 1]);
    }
  }

  lemma SortedHeadsAgree(a: seq<Entry>, b: seq<Entry>)
    requires EntriesSorted(a) && EntriesSorted(b) && a != [] && b != []
    requires forall e :: e in a <==> e in b
    ensures a[0] == b[0]
    ensures forall e :: e in a[1..] <==> e in b[1..]
  {
    assert a[0] in b && b[0] in a;
    EntryPrecedesAsymmetric(a[0], b[0]);
    forall e ensures e in a[1..] <==> e in b[1..] {
      SortedTail(a, e);
      SortedTail(b, e);
    }
  }

  lemma NonEmptyToo(a: seq<Entry>, b: seq<Entry>)
    requires forall e :: e in a ==> e in b
    ensures a != [] ==> b != []
  {
    if a != [] {
      assert a[0] in b;
    }
  }

  /** A strictly sorted list is determined by its elements. */
  lemma {:induction false} SortedUnique(a: seq<Entry>, b: seq<Entry>)
    requires EntriesSorted(a) && EntriesSorted(b)
    requires forall e :: e in a <==> e in b
    ensures a == b
  {
    NonEmptyToo(a, b);
    NonEmptyToo(b, a);
    if a != [] {
      SortedHeadsAgree(a, b);
      SortedUnique(a[1..], b[1..]);
      assert a == [a[0]] + a[1..] && b == [b[0]] + b[1..];
    }
  }

  /** An entry ranks iff its signature occurs that often. */
  lemma EntryRanks(lines: seq<Line>, e: Entry)
    ensures e in Entries(SortGroups(GroupsOf(lines))) <==>
            e.count > 0 && e.count == multiset(Signatures(lines))[e.signature]
  {
    hide SortGroups, GroupsOf, SamplesOf, Signatures, StrictlySorted, DistinctSignatures;
    var sorted := SortGroups(GroupsOf(lines));
    SortedGroups(lines);
    SampleCount(lines, e.signature);
    if e in Entries(sorted) {
      var i :| 0 <= i < |sorted| && Entries(sorted)[i] == e;
      GroupsAreExact(lines, sorted[i]);
    }
    if e.count > 0 && e.count == multiset(Signatures(lines))[e.signature] {
      var g := Group(e.signature, SamplesOf(lines, e.signature));
      GroupsAreExact(lines, g);
      var i :| 0 <= i < |sorted| && sorted[i] == g;
      assert Entries(sorted)[i] == e;
    }
  }

  lemma RankingExact(lines: seq<Line>)
    ensures EntriesSorted(Entries(SortGroups(GroupsOf(lines))))
    ensures forall e :: e in Entries(SortGroups(GroupsOf(lines))) <==>
                        e.count > 0 && e.count == multiset(Signatures(lines))[e.signature]
  {
    hide SortGroups, GroupsOf, Signatures;
    SortedGroups(lines);
    forall e: Entry
      ensures e in Entries(SortGroups(GroupsOf(lines))) <==>
              e.count > 0 && e.count == multiset(Signatures(lines))[e.signature]
    {
      EntryRanks(lines, e);
    }
  }

  function Image<T, U>(s: seq<T>, f: T -> U): seq<U> {
    seq(|s|, i requires 0 <= i < |s| => f(s[i]))
  }

  lemma ImageWithout<T, U>(b: seq<T>, i: nat, f: T -> U)
    requires i < |b|
    ensures multiset(b[..i] + b[i + 1..]) == multiset(b) - multiset{b[i]}
    ensures multiset(Image(b, f)) == multiset(Image(b[..i] + b[i + 1..], f)) + multiset{f(b[i])}
  {
    var lo, hi := b[..i], b[i + 1..];
    assert b == lo + [b[i]] + hi;
    assert Image(b, f) == Image(lo, f) + [f(b[i])] + Image(hi, f);
    assert Image(lo + hi, f) == Image(lo, f) + Image(hi, f);
  }

  lemma SameElementSomewhere<T>(a: seq<T>, b: seq<T>) returns (i: nat)
    requires multiset(a) == multiset(b) && a != []
    ensures i < |b| && b[i] == a[0]
  {
    assert a[0] in multiset(b);
    i :| 0 <= i < |b| && b[i] == a[0];
  }

  lemma {:induction false} ImagePermuted<T, U>(a: seq<T>, b: seq<T>, f: T -> U)
    requires multiset(a) == multiset(b)
    ensures multiset(Image(a, f)) == multiset(Image(b, f))
    decreases |a|
  {
    hide Image;
    if a == [] {
      assert |multiset(b)| == 0;
    } else {
      var i := SameElementSomewhere(a, b);
      ImageWithout(a, 0, f);
      ImageWithout(b, i, f);
      ImagePermuted(a[..0] + a[1..], b[..i] + b[i + 1..], f);
    }
  }

  function SignatureOf(l: Line): string { l.signature }

  /** The signatures and counts of the top groups do not depend on the order of the lines. */
  lemma RankingIgnoresOrder(x: seq<Line>, y: seq<Line>)
    requires multiset(x) == multiset(y)
    ensures Entries(TopGroups(x)) == Entries(TopGroups(y))
  {
    ImagePermuted(x, y, SignatureOf);
    assert Signatures(x) == Image(x, SignatureOf) && Signatures(y) == Image(y, SignatureOf);
    RankingExact(x);
    RankingExact(y);
    SortedUnique(Entries(SortGroups(GroupsOf(x))), Entries(SortGroups(GroupsOf(y))));
    assert Entries(TopGroups(x)) == Take(Entries(SortGroups(GroupsOf(x))), TOP);
    assert Entries(TopGroups(y)) == Take(Entries(SortGroups(GroupsOf(y))), TOP);
  }
}
