/** From two Loki responses to one evidence bundle within the byte cap (collectors/loki.py). */
module Loki {
  import opened Common
  import opened Evidence
  import opened Grouping

  /** A query either fails (transport, status, shape of the body) or yields streams of lines. */
  datatype Response<+T> = Failed | Streams(streams: seq<seq<T>>)

  // ---------------------------------------------------------------- normalisation of one source

  function Single(status: EvidenceStatus, signature: string): seq<LogEvidence> {
    [LogEvidence("L1", status, signature, 0, [])]
  }

  function Items(groups: seq<Group>): seq<LogEvidence> {
    seq(|groups|, i requires 0 <= i < |groups| =>
      LogEvidence("L1", OK, groups[i].signature, |groups[i].lines|, Take(groups[i].lines, 2)))
  }

  function FromLines(lines: seq<Line>, noData: string): seq<LogEvidence> {
    if lines == [] then Single(NO_DATA, noData) else Items(TopGroups(lines))
  }

  function NormalizeApplication(r: Response<Line>, limit: nat): seq<LogEvidence> {
    if r.Failed? then Single(QUERY_FAILED, "application_loki_query_failed")
    else FromLines(Take(Flatten(r.streams), limit), "application_no_matching_logs")
  }

  /** One line within the limit that fails to parse turns the whole response into a failure. */
  function NormalizeMysql(r: Response<Option<Line>>, limit: nat): seq<LogEvidence> {
    if r.Failed? || !AllParse(Take(Flatten(r.streams), limit)) then Single(QUERY_FAILED, "mysql_lock_loki_query_failed")
    else FromLines(Parsed(Take(Flatten(r.streams), limit)), "mysql_lock_no_matching_logs")
  }

  /** The tail both normalisers share: nothing grouped, or the top groups as evidence. */
  method ToEvidence(grouped: seq<Group>, noData: string, ghost lines: seq<Line>) returns (items: seq<LogEvidence>)
    requires grouped == GroupsOf(lines)
    ensures items == FromLines(lines, noData)
  {
    TotalIsLineCount(lines);
    if grouped == [] {
      return Single(NO_DATA, noData);
    }
    items := Items(Take(SortGroups(grouped), TOP));
  }

  method NormalizeApplicationResponse(r: Response<Line>, limit: nat) returns (items: seq<LogEvidence>)
    ensures items == NormalizeApplication(r, limit)
  {
    if r.Failed? {
      return Single(QUERY_FAILED, "application_loki_query_failed");
    }
    var grouped := GroupApplication(r.streams, limit);
    items := ToEvidence(grouped, "application_no_matching_logs", Take(Flatten(r.streams), limit));
  }

  method NormalizeMysqlResponse(r: Response<Option<Line>>, limit: nat) returns (items: seq<LogEvidence>)
    ensures items == NormalizeMysql(r, limit)
  {
    if r.Failed? {
      return Single(QUERY_FAILED, "mysql_lock_loki_query_failed");
    }
    var grouped := GroupMysql(r.streams, limit);
    if grouped.None? {
      return Single(QUERY_FAILED, "mysql_lock_loki_query_failed");
    }
    items := ToEvidence(grouped.value, "mysql_lock_no_matching_logs", Parsed(Take(Flatten(r.streams), limit)));
  }

  predicate LineFits(l: Line) {
    |l.signature| <= 512 && |l.sample| <= 700
  }

  lemma {:induction false} SamplesFit(lines: seq<Line>, signature: string)
    requires forall l | l in lines :: LineFits(l)
    ensures forall s | s in SamplesOf(lines, signature) :: |s| <= 700
    ensures SamplesOf(lines, signature) != [] ==> |signature| <= 512
    ensures |SamplesOf(lines, signature)| <= |lines|
  {
    if lines != [] {
      assert LineFits(Last(lines));
      SamplesFit(lines[..|lines| - 1], signature);
    }
  }

  /** Evidence built from at most 200 lines passes the field checks of the model. */
  lemma LinesWithinLimits(lines: seq<Line>, noData: string)
    requires |lines| <= 200 && |noData| <= 512 && forall l | l in lines :: LineFits(l)
    ensures 1 <= |FromLines(lines, noData)| <= TOP
    ensures forall e | e in FromLines(lines, noData) :: WithinFieldLimits(e)
  {
    var items := FromLines(lines, noData);
    TotalIsLineCount(lines);
    TopGroupsAreExact(lines);
    if lines != [] {
      forall e | e in items ensures WithinFieldLimits(e) {
        var i :| 0 <= i < |items| && items[i] == e;
        var g := TopGroups(lines)[i];
        assert g in TopGroups(lines);
        SamplesFit(lines, g.signature);
      }
    }
  }

  /** Every item states how often its signature occurs and shows its first two samples. */
  lemma EvidenceIsExact(lines: seq<Line>, noData: string, i: nat)
    requires lines != [] && i < |FromLines(lines, noData)|
    ensures var e := FromLines(lines, noData)[i];
            && e.status.OK? && e.count > 0
            && e.count == multiset(Signatures(lines))[e.signature]
            && e.samples == Take(SamplesOf(lines, e.signature), 2)
  {
    TopGroupsAreExact(lines);
    var g := TopGroups(lines)[i];
    assert g in TopGroups(lines);
    SampleCount(lines, g.signature);
  }

  // ---------------------------------------------------------------- which groups, in which order

  /** The order of the evidence: more often seen first, equal counts by signature. */
  ghost predicate RanksBefore(e: LogEvidence, count: nat, signature: string) {
    e.count > count || (e.count == count && Less(e.signature, signature))
  }

  /**
   The items are the first n signatures of the lines in that order, or all there are, with their
   counts. None repeats, since the order is strict.
   */
  ghost predicate AreFirst(items: seq<LogEvidence>, lines: seq<Line>, n: nat) {
    var times := multiset(Signatures(lines));
    && |items| <= n
    && (forall i, j | 0 <= i < j < |items| :: RanksBefore(items[i], items[j].count, items[j].signature))
    && (forall i | 0 <= i < |items| :: 0 < items[i].count == times[items[i].signature])
    && forall s | s in Signatures(lines) ::
         Shown(items, s) || (|items| == n && forall i | 0 <= i < |items| :: RanksBefore(items[i], times[s], s))
  }

  ghost predicate Shown(items: seq<LogEvidence>, signature: string) {
    exists i :: 0 <= i < |items| && items[i].signature == signature
  }

  lemma DroppedRanksLast(lines: seq<Line>, noData: string, s: string)
    requires lines != [] && s in Signatures(lines) && !Shown(FromLines(lines, noData), s)
    ensures |FromLines(lines, noData)| == TOP
    ensures forall i | 0 <= i < TOP ::
              RanksBefore(FromLines(lines, noData)[i], multiset(Signatures(lines))[s], s)
  {
    hide GroupsOf, SortGroups, SamplesOf, Signatures;
    var items, top := FromLines(lines, noData), TopGroups(lines);
    var dropped := Group(s, SamplesOf(lines, s));
    SampleCount(lines, s);
    GroupsAreExact(lines, dropped);
    forall i | 0 <= i < |top| ensures top[i] != dropped {
      assert items[i].signature == top[i].signature;
    }
    TopGroupsAreLargest(lines, dropped);
    forall i | 0 <= i < TOP ensures RanksBefore(items[i], multiset(Signatures(lines))[s], s) {
      assert top[i] in top;
    }
  }

  /** The items come in order, each with its count. */
  lemma ItemsInOrder(lines: seq<Line>, noData: string, i: nat, j: nat)
    requires lines != [] && i < j < |FromLines(lines, noData)|
    ensures var items := FromLines(lines, noData);
            RanksBefore(items[i], items[j].count, items[j].signature)
  {
    hide TopGroups, RanksBefore;
    TopGroupsAreExact(lines);
    OrderOfItems(TopGroups(lines), i, j);
  }

  /** What a source shows of its lines: the first twenty signatures. */
  lemma ItemsAreFirst(lines: seq<Line>, noData: string)
    requires lines != []
    ensures AreFirst(FromLines(lines, noData), lines, TOP)
  {
    hide RanksBefore, Shown, FromLines, Signatures;
    var items, times := FromLines(lines, noData), multiset(Signatures(lines));
    FromLinesNonEmpty(lines, noData);
    forall i | 0 <= i < |items| ensures 0 < items[i].count == times[items[i].signature] {
      EvidenceIsExact(lines, noData, i);
    }
    forall i, j | 0 <= i < j < |items| ensures RanksBefore(items[i], items[j].count, items[j].signature) {
      ItemsInOrder(lines, noData, i, j);
    }
    forall s | s in Signatures(lines) && !Shown(items, s)
      ensures |items| == TOP && forall i | 0 <= i < |items| :: RanksBefore(items[i], times[s], s)
    {
      DroppedRanksLast(lines, noData, s);
    }
  }

  lemma OrderOfItems(groups: seq<Group>, i: nat, j: nat)
    requires StrictlySorted(groups) && i < j < |groups|
    ensures RanksBefore(Items(groups)[i], Items(groups)[j].count, Items(groups)[j].signature)
  {
    assert Precedes(groups[i], groups[j]);
  }

  /** Cutting the list keeps the first ones; new ids and other samples do not matter. */
  lemma FirstOfFirst(items: seq<LogEvidence>, shorter: seq<LogEvidence>, lines: seq<Line>, n: nat, m: nat)
    requires AreFirst(items, lines, n) && m <= n && |shorter| == Min(m, |items|)
    requires forall i | 0 <= i < |shorter| ::
               shorter[i].signature == items[i].signature && shorter[i].count == items[i].count
    ensures AreFirst(shorter, lines, m)
  {
    hide Signatures, Less;
    var times := multiset(Signatures(lines));
    forall s | s in Signatures(lines) && !Shown(shorter, s)
      ensures |shorter| == m && forall i | 0 <= i < |shorter| :: RanksBefore(shorter[i], times[s], s)
    {
      if Shown(items, s) {
        var j :| 0 <= j < |items| && items[j].signature == s;
        assert j >= |shorter|;
        assert items[j].count == times[s];
      }
    }
  }

  // ---------------------------------------------------------------- what a source says of itself

  /** An application response is a failure, no data, or evidence, and only evidence is OK. */
  lemma ApplicationStates(r: Response<Line>, limit: nat)
    ensures var items := NormalizeApplication(r, limit);
            && (r.Failed? ==> items == [LogEvidence("L1", QUERY_FAILED, "application_loki_query_failed", 0, [])])
            && (r.Streams? && Take(Flatten(r.streams), limit) == [] ==>
                  items == [LogEvidence("L1", NO_DATA, "application_no_matching_logs", 0, [])])
            && (r.Streams? && Take(Flatten(r.streams), limit) != [] ==>
                  && AreFirst(items, Take(Flatten(r.streams), limit), 20)
                  && forall e | e in items :: e.status.OK?)
  {
    hide AreFirst;
    if r.Streams? && Take(Flatten(r.streams), limit) != [] {
      ItemsAreFirst(Take(Flatten(r.streams), limit), "application_no_matching_logs");
    }
  }

  /** So is a MySQL response, which also fails if a line within the limit does not parse. */
  lemma MysqlStates(r: Response<Option<Line>>, limit: nat)
    ensures var items := NormalizeMysql(r, limit);
            var failed := r.Failed? || exists i ::
              0 <= i < Min(limit, |Flatten(r.streams)|) && Flatten(r.streams)[i].None?;
            && (failed ==> items == [LogEvidence("L1", QUERY_FAILED, "mysql_lock_loki_query_failed", 0, [])])
            && (!failed ==> AllParse(Take(Flatten(r.streams), limit)))
            && (!failed && Take(Flatten(r.streams), limit) == [] ==>
                  items == [LogEvidence("L1", NO_DATA, "mysql_lock_no_matching_logs", 0, [])])
            && (!failed && Take(Flatten(r.streams), limit) != [] ==>
                  && AreFirst(items, Parsed(Take(Flatten(r.streams), limit)), 20)
                  && forall e | e in items :: e.status.OK?)
  {
    hide AreFirst;
    if r.Streams? {
      var used := Take(Flatten(r.streams), limit);
      assert |used| == Min(limit, |Flatten(r.streams)|);
      assert forall i | 0 <= i < |used| :: used[i] == Flatten(r.streams)[i];
      if AllParse(used) && used != [] {
        ItemsAreFirst(Parsed(used), "mysql_lock_no_matching_logs");
      }
    }
  }

  // ---------------------------------------------------------------- the order of lines

  /** An item without its id and samples. */
  datatype Digest = Digest(status: EvidenceStatus, signature: string, count: nat)

  function Digests(items: seq<LogEvidence>): seq<Digest> {
    seq(|items|, i requires 0 <= i < |items| => Digest(items[i].status, items[i].signature, items[i].count))
  }

  lemma DigestsOfItems(g: seq<Group>, h: seq<Group>)
    requires Entries(g) == Entries(h)
    ensures Digests(Items(g)) == Digests(Items(h))
  {
    assert |g| == |Entries(g)| == |h|;
    forall i | 0 <= i < |g| ensures Digests(Items(g))[i] == Digests(Items(h))[i] {
      assert Entries(g)[i] == Entries(h)[i];
    }
  }

  lemma FromLinesIgnoresOrder(x: seq<Line>, y: seq<Line>, noData: string)
    requires multiset(x) == multiset(y)
    ensures Digests(FromLines(x, noData)) == Digests(FromLines(y, noData))
  {
    hide TopGroups;
    assert |multiset(x)| == |multiset(y)|;
    RankingIgnoresOrder(x, y);
    DigestsOfItems(TopGroups(x), TopGroups(y));
  }

  /** When the limit cuts nothing off, application lines and streams in any other order give the same items. */
  lemma ApplicationIgnoresOrder(a: seq<seq<Line>>, b: seq<seq<Line>>, limit: nat)
    requires multiset(Flatten(a)) == multiset(Flatten(b)) && |Flatten(a)| <= limit
    ensures Digests(NormalizeApplication(Streams(a), limit)) == Digests(NormalizeApplication(Streams(b), limit))
  {
    assert |multiset(Flatten(a))| == |multiset(Flatten(b))|;
    FromLinesIgnoresOrder(Flatten(a), Flatten(b), "application_no_matching_logs");
  }

  /** What Parsed makes of a line; a line that does not parse never gets that far. */
  function LineOf(l: Option<Line>): Line {
    if l.Some? then l.value else Line("", "")
  }

  lemma ParseIgnoresOrder(x: seq<Option<Line>>, y: seq<Option<Line>>)
    requires multiset(x) == multiset(y)
    ensures AllParse(x) <==> AllParse(y)
    ensures AllParse(x) ==> multiset(Parsed(x)) == multiset(Parsed(y))
  {
    assert AllParse(x) <==> None !in multiset(x);
    assert AllParse(y) <==> None !in multiset(y);
    if AllParse(x) {
      ImagePermuted(x, y, LineOf);
      assert Parsed(x) == Image(x, LineOf) && Parsed(y) == Image(y, LineOf);
    }
  }

  /** So do MySQL lines; one that does not parse fails the response wherever it stands. */
  lemma MysqlIgnoresOrder(a: seq<seq<Option<Line>>>, b: seq<seq<Option<Line>>>, limit: nat)
    requires multiset(Flatten(a)) == multiset(Flatten(b)) && |Flatten(a)| <= limit
    ensures Digests(NormalizeMysql(Streams(a), limit)) == Digests(NormalizeMysql(Streams(b), limit))
  {
    hide FromLines, Flatten, AllParse, Parsed, Digests;
    var x, y := Flatten(a), Flatten(b);
    assert |multiset(x)| == |multiset(y)|;
    ParseIgnoresOrder(x, y);
    if AllParse(x) {
      FromLinesIgnoresOrder(Parsed(x), Parsed(y), "mysql_lock_no_matching_logs");
    }
  }

  // ---------------------------------------------------------------- field limits

  ghost predicate ApplicationFits(r: Response<Line>) {
    r.Streams? ==> forall l | l in Flatten(r.streams) :: LineFits(l)
  }

  ghost predicate MysqlFits(r: Response<Option<Line>>) {
    r.Streams? ==> forall l | l in Flatten(r.streams) && l.Some? :: LineFits(l.value)
  }

  // ---------------------------------------------------------------- combination

  function Renumbered(items: seq<LogEvidence>): seq<LogEvidence> {
    seq(|items|, i requires 0 <= i < |items| => items[i].(id := LogId(i + 1)))
  }

  function Combined(application: seq<LogEvidence>, mysql: seq<LogEvidence>): seq<LogEvidence> {
    Renumbered(Take(Take(application, 10) + Take(mysql, 10), 20))
  }

  /** Rewrites evidence_id of the joined list in place. */
  method CombineEvidence(application: seq<LogEvidence>, mysql: seq<LogEvidence>) returns (evidence: seq<LogEvidence>)
    ensures evidence == Combined(application, mysql)
  {
    hide LogId, Take;
    var joined := Take(Take(application, 10) + Take(mysql, 10), 20);
    var items := new LogEvidence[|joined|](i requires 0 <= i < |joined| => joined[i]);
    for index := 0 to items.Length
      invariant forall k | 0 <= k < index :: items[k] == joined[k].(id := LogId(k + 1))
      invariant forall k | index <= k < items.Length :: items[k] == joined[k]
    {
      items[index] := items[index].(id := LogId(index + 1));
    }
    evidence := items[..];
    assert evidence == Renumbered(joined);
  }

  /** Up to ten from each source survive the combination, in order, whatever the other source holds. */
  lemma CombinedReserves(application: seq<LogEvidence>, mysql: seq<LogEvidence>)
    ensures var c := Combined(application, mysql);
            var a := Min(10, |application|);
            && |c| == a + Min(10, |mysql|) <= 20
            && Numbered(c)
            && (forall i | 0 <= i < a :: c[i].(id := application[i].id) == application[i])
            && (forall i | a <= i < |c| :: c[i].(id := mysql[i - a].id) == mysql[i - a])
  {
  }

  /** The places of each source show its first ten signatures, whatever the other source holds. */
  lemma PlacesShowFirst(application: Response<Line>, mysql: Response<Option<Line>>, limit: nat)
    ensures var c := Combined(NormalizeApplication(application, limit), NormalizeMysql(mysql, limit));
            var a := Min(10, |NormalizeApplication(application, limit)|);
            && a <= |c|
            && (application.Streams? && Take(Flatten(application.streams), limit) != [] ==>
                  AreFirst(c[..a], Take(Flatten(application.streams), limit), 10))
            && (mysql.Streams? && AllParse(Take(Flatten(mysql.streams), limit))
                && Take(Flatten(mysql.streams), limit) != [] ==>
                  AreFirst(c[a..], Parsed(Take(Flatten(mysql.streams), limit)), 10))
  {
    hide AreFirst, FromLines, Combined;
    var app, my := NormalizeApplication(application, limit), NormalizeMysql(mysql, limit);
    var c, a := Combined(app, my), Min(10, |app|);
    CombinedReserves(app, my);
    if application.Streams? && Take(Flatten(application.streams), limit) != [] {
      var lines := Take(Flatten(application.streams), limit);
      ItemsAreFirst(lines, "application_no_matching_logs");
      forall i | 0 <= i < a ensures c[..a][i].signature == app[i].signature && c[..a][i].count == app[i].count {
        assert c[i].(id := app[i].id) == app[i];
      }
      FirstOfFirst(app, c[..a], lines, TOP, 10);
    }
    if mysql.Streams? && AllParse(Take(Flatten(mysql.streams), limit)) && Take(Flatten(mysql.streams), limit) != [] {
      var lines := Parsed(Take(Flatten(mysql.streams), limit));
      ItemsAreFirst(lines, "mysql_lock_no_matching_logs");
      forall i | 0 <= i < |c| - a ensures c[a..][i].signature == my[i].signature && c[a..][i].count == my[i].count {
        assert c[a + i].(id := my[i].id) == my[i];
      }
      FirstOfFirst(my, c[a..], lines, TOP, 10);
    }
  }

  // ---------------------------------------------------------------- size in bytes

  const MAX_EVIDENCE_BYTES := 16 * 1024

  /** Bytes of one character inside a JSON string: an escape, or its UTF-8 length. */
  function CharBytes(c: char): (n: nat)
    ensures 1 <= n <= 6
  {
    var u := c as int;
    if c == '"' || c == '\\' || (8 <= u <= 13 && u != 11) then 2
    else if u < 0x20 then 6
    else if u < 0x80 then 1
    else if u < 0x800 then 2
    else if u < 0x10000 then 3
    else 4
  }

  function TextBytes(s: string): nat {
    if s == "" then 0 else CharBytes(s[0]) + TextBytes(s[1..])
  }

  lemma {:induction false} TextBytesBound(s: string)
    ensures |s| <= TextBytes(s) <= 6 * |s|
  {
    if s != "" {
      TextBytesBound(s[1..]);
    }
  }

  /** Quoted strings with a comma between them. */
  function SamplesBytes(samples: seq<string>): nat {
    if samples == [] then 0
    else 2 + TextBytes(samples[0]) + (if |samples| > 1 then 1 else 0) + SamplesBytes(samples[1..])
  }

  function StatusBytes(s: EvidenceStatus): nat {
    match s
    case OK => 2
    case NO_DATA => 7
    case QUERY_FAILED => 12
    case LIMIT_EXCEEDED => 14
  }

  /** Field names and punctuation of one item. */
  const ITEM_FRAME: nat := 67

  function ItemBytes(e: LogEvidence): nat {
    ITEM_FRAME + |e.id| + StatusBytes(e.status) + TextBytes(e.signature) + |Decimal(e.count)| + SamplesBytes(e.samples)
  }

  function ListBytes(items: seq<LogEvidence>): nat {
    if items == [] then 0 else ListBytes(items[..|items| - 1]) + ItemBytes(Last(items)) + if |items| > 1 then 1 else 0
  }

  /** Everything of the bundle but the window, the items and the truncated flag. */
  const BUNDLE_FRAME: nat := 330
  const TRUNCATED_BYTES: nat := 17

  /** An instant of a four-digit year in UTC: 2025-01-31T12:34:56Z, with six decimals if it has any. */
  function InstantBytes(t: int): nat {
    if t % SECOND == 0 then 20 else 27
  }

  function BundleBytes(b: EvidenceBundle): nat {
    BUNDLE_FRAME + InstantBytes(b.windowStart) + InstantBytes(b.windowEnd) + ListBytes(b.logEvidence)
    + if b.truncated then TRUNCATED_BYTES else 0
  }

  // ---------------------------------------------------------------- truncation

  function Prefix(b: EvidenceBundle, k: nat): EvidenceBundle
    requires k <= |b.logEvidence|
  {
    b.(logEvidence := b.logEvidence[..k], truncated := b.truncated || k < |b.logEvidence|)
  }

  predicate Fits(b: EvidenceBundle) {
    BundleBytes(b) <= MAX_EVIDENCE_BYTES
  }

  /** The first prefix that fits when items are dropped from the end, never below one item. */
  function LongestFit(b: EvidenceBundle, k: nat): (r: nat)
    requires k <= |b.logEvidence|
    ensures r <= k && (k >= 1 ==> r >= 1)
  {
    if k <= 1 || Fits(Prefix(b, k)) then k else LongestFit(b, k - 1)
  }

  /** What _bundle returns: the longest fitting prefix, or one item stripped of its samples. */
  function Truncate(b: EvidenceBundle): EvidenceBundle {
    var kept := Prefix(b, LongestFit(b, |b.logEvidence|));
    if Fits(kept) || kept.logEvidence == [] then kept
    else kept.(logEvidence := [kept.logEvidence[0].(samples := [])], truncated := true)
  }

  lemma {:induction false} LongestFitIsLongest(b: EvidenceBundle, k: nat)
    requires k <= |b.logEvidence|
    ensures forall j | LongestFit(b, k) < j <= k :: !Fits(Prefix(b, j))
    ensures Fits(Prefix(b, LongestFit(b, k))) || LongestFit(b, k) <= 1
  {
    hide Fits, Prefix;
    if k > 1 && !Fits(Prefix(b, k)) {
      LongestFitIsLongest(b, k - 1);
    }
  }

  /** The bundle as the worker holds it, its fields assigned in place. */
  class Bundle {
    var collectorVersion: string
    const windowStart: int
    const windowEnd: int
    var logEvidence: seq<LogEvidence>
    var alertEvidence: seq<AlertEvidence>
    var truncated: bool

    constructor (windowStart: int, windowEnd: int, evidence: seq<LogEvidence>)
      ensures View() == EvidenceBundle("loki-mysql-v2", windowStart, windowEnd, evidence, [], false)
    {
      collectorVersion := "loki-mysql-v2";
      this.windowStart := windowStart;
      this.windowEnd := windowEnd;
      logEvidence := evidence;
      alertEvidence := [];
      truncated := false;
    }

    function View(): EvidenceBundle
      reads this
    {
      EvidenceBundle(collectorVersion, windowStart, windowEnd, logEvidence, alertEvidence, truncated)
    }

    /** The pop-until-it-fits loop. An empty list that does not fit has no item to strip. */
    method Shrink()
      requires logEvidence != [] || Fits(View())
      modifies this
      ensures View() == Truncate(old(View()))
    {
      ghost var b := View();
      assert b.logEvidence[..|b.logEvidence|] == b.logEvidence;
      while !Fits(View())
        invariant |logEvidence| <= |b.logEvidence| && View() == Prefix(b, |logEvidence|)
        invariant LongestFit(b, |b.logEvidence|) == LongestFit(b, |logEvidence|)
        invariant b.logEvidence != [] ==> logEvidence != []
        decreases |logEvidence|
      {
        if |logEvidence| > 1 {
          logEvidence := logEvidence[..|logEvidence| - 1];
          truncated := true;
          continue;
        }
        logEvidence := [logEvidence[0].(samples := [])];
        truncated := true;
        break;
      }
    }
  }

  lemma {:induction false} SamplesBound(samples: seq<string>)
    requires forall s | s in samples :: |s| <= 700
    ensures SamplesBytes(samples) <= 4203 * |samples|
  {
    if samples != [] {
      assert samples[0] in samples;
      TextBytesBound(samples[0]);
      SamplesBound(samples[1..]);
    }
  }

  /** With the field limits, a bundle of one item always fits, so samples are never stripped. */
  lemma OneItemFits(b: EvidenceBundle)
    requires |b.logEvidence| == 1 && WithinFieldLimits(b.logEvidence[0]) && |b.logEvidence[0].id| <= 3
    ensures Fits(b)
  {
    var e := b.logEvidence[0];
    TextBytesBound(e.signature);
    SamplesBound(e.samples);
    assert SamplesBytes(e.samples) <= 8406;
    assert ItemBytes(e) <= ITEM_FRAME + 3 + 14 + 3072 + 3 + 8406;
    assert ListBytes(b.logEvidence[..0]) == 0;
    assert ListBytes(b.logEvidence) == ItemBytes(e);
  }

  lemma ItemHasFrame(e: LogEvidence)
    ensures ItemBytes(e) >= ITEM_FRAME
  {
  }

  lemma {:induction false} ListBytesGrows(items: seq<LogEvidence>, j: nat, k: nat)
    requires j <= k <= |items|
    ensures ListBytes(items[..k]) >= ListBytes(items[..j]) + ITEM_FRAME * (k - j)
  {
    hide ItemBytes;
    if j < k {
      assert items[..k][..k - 1] == items[..k - 1];
      ListBytesGrows(items, j, k - 1);
      ItemHasFrame(items[k - 1]);
    }
  }

  /** A shorter prefix is smaller: an item takes more room than the flag that dropping it sets. */
  lemma ShorterFits(b: EvidenceBundle, j: nat, k: nat)
    requires j <= k <= |b.logEvidence| && Fits(Prefix(b, k))
    ensures Fits(Prefix(b, j))
  {
    ListBytesGrows(b.logEvidence, j, k);
  }

  /** Item number k of two or more survives truncation iff the list still fits when it ends with that item. */
  lemma KeptIff(b: EvidenceBundle, k: nat)
    requires 2 <= k <= |b.logEvidence|
    ensures |Truncate(b).logEvidence| >= k <==> Fits(Prefix(b, k))
  {
    var n := |b.logEvidence|;
    LongestFitIsLongest(b, n);
    assert |Truncate(b).logEvidence| == LongestFit(b, n);
    if LongestFit(b, n) >= k {
      ShorterFits(b, k, LongestFit(b, n));
    }
  }

  /** A first item that does not fit alone is all that is left, without its samples, and marked. */
  lemma StrippedIff(b: EvidenceBundle)
    requires b.logEvidence != []
    ensures BundleBytes(Prefix(b, 1)) > 16 * 1024 ==>
              var t := Truncate(b);
              && t.logEvidence == [b.logEvidence[0].(samples := [])] && t.truncated
              && t.(logEvidence := b.logEvidence, truncated := b.truncated) == b
    ensures BundleBytes(Prefix(b, 1)) <= 16 * 1024 ==>
              var k := |Truncate(b).logEvidence|;
              1 <= k <= |b.logEvidence| && Truncate(b) == Prefix(b, k) && BundleBytes(Truncate(b)) <= 16 * 1024
  {
    var n := |b.logEvidence|;
    LongestFitIsLongest(b, n);
    if BundleBytes(Prefix(b, 1)) > 16 * 1024 && LongestFit(b, n) > 1 {
      ShorterFits(b, 1, LongestFit(b, n));
    }
  }

  /** Every reserved place is kept iff the whole list fits. */
  lemma NothingDroppedIff(b: EvidenceBundle)
    requires !b.truncated && |b.logEvidence| >= 2
    ensures Truncate(b) == b <==> Fits(b)
  {
    KeptIff(b, |b.logEvidence|);
    assert Prefix(b, |b.logEvidence|) == b;
  }

  lemma {:induction false} ListBytesAtLeast(items: seq<LogEvidence>, m: nat)
    requires forall e | e in items :: ItemBytes(e) >= m
    ensures ListBytes(items) >= m * |items|
  {
    hide ItemBytes;
    if items != [] {
      var n := |items| - 1;
      assert Last(items) in items;
      ListBytesAtLeast(items[..n], m);
      assert m * (n + 1) == m * n + m;
    }
  }

  /** A line whose signature and sample take this much leaves room for ten items at most. */
  const HEAVY: nat := 1530

  predicate HeavyLine(l: Line) {
    TextBytes(l.signature) + TextBytes(l.sample) >= HEAVY
  }

  lemma HeavyItem(lines: seq<Line>, noData: string, i: nat)
    requires lines != [] && (forall l | l in lines :: HeavyLine(l)) && i < |FromLines(lines, noData)|
    ensures var e := FromLines(lines, noData)[i];
            && TextBytes(e.signature) + SamplesBytes(e.samples) >= HEAVY + 2
            && e.signature in Signatures(lines)
  {
    var e := FromLines(lines, noData)[i];
    EvidenceIsExact(lines, noData, i);
    SampleCount(lines, e.signature);
    var k := FirstSample(lines, e.signature);
    assert Signatures(lines)[k] == e.signature;
    assert e.samples[0] == lines[k].sample;
    assert HeavyLine(lines[k]);
  }

  /** The first sample of a signature is that of some line with the signature. */
  lemma {:induction false} FirstSample(lines: seq<Line>, signature: string) returns (k: nat)
    requires SamplesOf(lines, signature) != []
    ensures k < |lines| && lines[k] == Line(signature, SamplesOf(lines, signature)[0])
  {
    var n := |lines| - 1;
    if SamplesOf(lines[..n], signature) == [] {
      k := n;
    } else {
      k := FirstSample(lines[..n], signature);
    }
  }

  /** Ten items of this size fill the cap on their own: no list that starts with them keeps an eleventh. */
  lemma TenHeavyItemsFill(b: EvidenceBundle)
    requires |b.logEvidence| >= 10
    requires forall i | 0 <= i < 10 :: ItemBytes(b.logEvidence[i]) >= HEAVY + 74
    ensures |Truncate(b).logEvidence| <= 10
  {
    hide ItemBytes, ListBytes;
    var ten := b.logEvidence[..10];
    ListBytesAtLeast(ten, HEAVY + 74);
    forall k | 10 < k <= |b.logEvidence| ensures !Fits(Prefix(b, k)) {
      ListBytesGrows(b.logEvidence, 10, k);
    }
    LongestFitIsLongest(b, |b.logEvidence|);
  }

  /**
   Ten application groups of heavy lines lose the places reserved for MySQL: whatever the MySQL
   source has found, every item left comes from the application source.
   */
  lemma HeavyLinesCrowdOut(application: Response<Line>, mysql: Response<Option<Line>>, limit: nat, startedAt: int)
    requires application.Streams? && |GroupsOf(Take(Flatten(application.streams), limit))| >= 10
    requires forall l | l in Take(Flatten(application.streams), limit) :: HeavyLine(l)
    ensures var b := Collect(application, mysql, limit, startedAt);
            && |b.logEvidence| <= 10
            && forall e | e in b.logEvidence :: e.signature in Signatures(Take(Flatten(application.streams), limit))
  {
    hide TextBytes, SamplesBytes, Truncate;
    var lines := Take(Flatten(application.streams), limit);
    var app := NormalizeApplication(application, limit);
    TopGroupsAreExact(lines);
    assert |app| >= 10;
    CombinedReserves(app, NormalizeMysql(mysql, limit));
    var whole := Whole(application, mysql, limit, startedAt);
    forall i | 0 <= i < 10
      ensures ItemBytes(whole.logEvidence[i]) >= HEAVY + 74 && whole.logEvidence[i].signature in Signatures(lines)
    {
      HeavyItem(lines, "application_no_matching_logs", i);
      assert whole.logEvidence[i].id == LogId(i + 1);
    }
    TenHeavyItemsFill(whole);
    TruncatedIsPrefix(whole);
  }

  lemma TruncatedIsPrefix(b: EvidenceBundle)
    requires b.logEvidence != []
    ensures var t := Truncate(b).logEvidence;
            && 1 <= |t| <= |b.logEvidence|
            && forall i | 0 <= i < |t| :: t[i].signature == b.logEvidence[i].signature
  {
  }

  const WIDE: char := '\U{D55C}'

  lemma {:induction false} WideText(n: nat)
    ensures TextBytes(seq(n, _ => WIDE)) == 3 * n
  {
    if n > 0 {
      var s := seq(n, _ => WIDE);
      assert s[1..] == seq(n - 1, _ => WIDE);
      WideText(n - 1);
    }
  }

  lemma {:induction false} WideTail(head: string, n: nat)
    ensures TextBytes(head + seq(n, _ => WIDE)) >= |head| + 3 * n
  {
    if head == "" {
      WideText(n);
      assert head + seq(n, _ => WIDE) == seq(n, _ => WIDE);
    } else {
      var s := head + seq(n, _ => WIDE);
      assert s[1..] == head[1..] + seq(n, _ => WIDE);
      WideTail(head[1..], n);
    }
  }

  /** The line of a log record with event d and a message of 300 Hangul characters. */
  function HangulLine(d: nat): Line
    requires d < 10
  {
    var head := "{\"source\":\"application\",\"level\":\"ERROR\",\"event\":\"" + [Digit(d)]
                + "\",\"error_code\":\"E\",\"exception_class\":\"none\",\"route\":\"unknown\",\"message\":\"";
    Line([Digit(d)] + "|E|none|" + seq(300, _ => WIDE), head + seq(300 - |head|, _ => WIDE))
  }

  lemma HangulLineIsHeavy(d: nat)
    requires d < 10
    ensures LineFits(HangulLine(d)) && HeavyLine(HangulLine(d))
  {
    hide TextBytes;
    var head := "{\"source\":\"application\",\"level\":\"ERROR\",\"event\":\"" + [Digit(d)]
                + "\",\"error_code\":\"E\",\"exception_class\":\"none\",\"route\":\"unknown\",\"message\":\"";
    WideTail([Digit(d)] + "|E|none|", 300);
    WideTail(head, 300 - |head|);
  }

  /** Lines with different signatures are as many groups. */
  lemma DistinctLinesGroup(lines: seq<Line>)
    requires Distinct(Signatures(lines))
    ensures |GroupsOf(lines)| >= |lines|
  {
    var groups := GroupsOf(lines);
    var names := seq(|groups|, i requires 0 <= i < |groups| => groups[i].signature);
    forall s | s in Signatures(lines) ensures s in names {
      DistinctOccurrences(Signatures(lines), s);
      SampleCount(lines, s);
      GroupsAreExact(lines, Group(s, SamplesOf(lines, s)));
      var i :| 0 <= i < |groups| && groups[i] == Group(s, SamplesOf(lines, s));
      assert names[i] == s;
    }
    DistinctWithin(Signatures(lines), names);
  }

  lemma HangulSignature(d: nat)
    requires d < 10
    ensures HangulLine(d).signature != "" && HangulLine(d).signature[0] as int == '0' as int + d
  {
  }

  /** Ten records that differ in their event. */
  function HangulLines(): seq<Line> {
    seq(10, i requires 0 <= i < 10 => HangulLine(i))
  }

  lemma HangulLinesGroup()
    ensures |HangulLines()| == 10 && |GroupsOf(HangulLines())| >= 10
    ensures forall l | l in HangulLines() :: LineFits(l) && HeavyLine(l)
  {
    hide HangulLine, HeavyLine, GroupsOf;
    var lines := HangulLines();
    forall i | 0 <= i < 10 ensures LineFits(lines[i]) && HeavyLine(lines[i]) {
      HangulLineIsHeavy(i);
    }
    forall i, j | 0 <= i < j < 10 ensures Signatures(lines)[i] != Signatures(lines)[j] {
      HangulSignature(i);
      HangulSignature(j);
    }
    DistinctLinesGroup(lines);
  }

  /** Such lines exist, so the reservation of half the places does not survive truncation. */
  lemma ReservationCanBeLost(mysql: Response<Option<Line>>, startedAt: int)
    ensures var b := Collect(Streams([HangulLines()]), mysql, 200, startedAt);
            && |b.logEvidence| <= 10
            && forall e | e in b.logEvidence :: e.signature in Signatures(HangulLines())
    ensures forall l | l in HangulLines() :: LineFits(l)
  {
    hide HangulLines, HeavyLine, LineFits, GroupsOf, Collect, Signatures;
    var lines := HangulLines();
    HangulLinesGroup();
    assert Flatten([lines]) == lines;
    HeavyLinesCrowdOut(Streams([lines]), mysql, 200, startedAt);
  }

  // ---------------------------------------------------------------- the whole collector

  function Collect(application: Response<Line>, mysql: Response<Option<Line>>,
                   limit: nat, startedAt: int): EvidenceBundle {
    Truncate(Whole(application, mysql, limit, startedAt))
  }

  method CollectEvidence(application: Response<Line>, mysql: Response<Option<Line>>,
                         limit: nat, startedAt: int) returns (b: Bundle)
    ensures fresh(b) && b.View() == Collect(application, mysql, limit, startedAt)
  {
    var a := NormalizeApplicationResponse(application, limit);
    var m := NormalizeMysqlResponse(mysql, limit);
    NormalizedNonEmpty(application, mysql, limit);
    var evidence := CombineEvidence(a, m);
    b := new Bundle(startedAt - 2 * MINUTE, startedAt + 10 * MINUTE, evidence);
    b.Shrink();
  }

  lemma FromLinesNonEmpty(lines: seq<Line>, noData: string)
    ensures 1 <= |FromLines(lines, noData)| <= TOP
  {
    TotalIsLineCount(lines);
    TopGroupsAreExact(lines);
  }

  lemma NormalizedNonEmpty(application: Response<Line>, mysql: Response<Option<Line>>, limit: nat)
    ensures 1 <= |NormalizeApplication(application, limit)| <= TOP
    ensures 1 <= |NormalizeMysql(mysql, limit)| <= TOP
  {
    if application.Streams? {
      FromLinesNonEmpty(Take(Flatten(application.streams), limit), "application_no_matching_logs");
    }
    if mysql.Streams? && AllParse(Take(Flatten(mysql.streams), limit)) {
      FromLinesNonEmpty(Parsed(Take(Flatten(mysql.streams), limit)), "mysql_lock_no_matching_logs");
    }
  }

  function Whole(application: Response<Line>, mysql: Response<Option<Line>>,
                 limit: nat, startedAt: int): EvidenceBundle {
    var evidence := Combined(NormalizeApplication(application, limit), NormalizeMysql(mysql, limit));
    EvidenceBundle("loki-mysql-v2", startedAt - 2 * MINUTE, startedAt + 10 * MINUTE, evidence, [], false)
  }

  /** The bundle covers two minutes before the incident began to ten after; nothing but items is cut. */
  lemma CollectedWindow(application: Response<Line>, mysql: Response<Option<Line>>, limit: nat, startedAt: int)
    ensures var b := Collect(application, mysql, limit, startedAt);
            && b.windowStart == startedAt - 120_000_000 && b.windowEnd == startedAt + 600_000_000
            && b.collectorVersion == "loki-mysql-v2" && b.alertEvidence == []
  {
    hide Combined, NormalizeApplication, NormalizeMysql, Fits;
  }

  lemma TruncateKeepsNumbers(b: EvidenceBundle)
    requires WellNumbered(b)
    ensures WellNumbered(Truncate(b))
  {
  }

  lemma WholeIsWellNumbered(application: Response<Line>, mysql: Response<Option<Line>>, limit: nat, startedAt: int)
    ensures WellNumbered(Whole(application, mysql, limit, startedAt))
  {
    NormalizedNonEmpty(application, mysql, limit);
    CombinedReserves(NormalizeApplication(application, limit), NormalizeMysql(mysql, limit));
  }

  /** Whatever Loki answers, the collected bundle is numbered L1..Lk with 1 <= k <= 20. */
  lemma CollectedIsWellNumbered(application: Response<Line>, mysql: Response<Option<Line>>, limit: nat, startedAt: int)
    ensures WellNumbered(Collect(application, mysql, limit, startedAt))
  {
    WholeIsWellNumbered(application, mysql, limit, startedAt);
    TruncateKeepsNumbers(Whole(application, mysql, limit, startedAt));
  }

  /**
   The reservation of half the places, exactly. The MySQL source is heard iff the list that ends with
   its first item fits, and nothing of either source is dropped iff the whole list fits.
   */
  lemma SecondSourceHeardIff(application: Response<Line>, mysql: Response<Option<Line>>, limit: nat, startedAt: int)
    ensures var whole := Whole(application, mysql, limit, startedAt);
            var b := Collect(application, mysql, limit, startedAt);
            var first := Min(10, |NormalizeApplication(application, limit)|);
            && 1 <= first < |whole.logEvidence|
            && (|b.logEvidence| > first <==> Fits(Prefix(whole, first + 1)))
            && (b == whole <==> Fits(whole))
  {
    hide Fits, Truncate, NormalizeApplication, NormalizeMysql;
    var whole := Whole(application, mysql, limit, startedAt);
    var first := Min(10, |NormalizeApplication(application, limit)|);
    NormalizedNonEmpty(application, mysql, limit);
    CombinedReserves(NormalizeApplication(application, limit), NormalizeMysql(mysql, limit));
    KeptIff(whole, first + 1);
    NothingDroppedIff(whole);
  }

  /** When neither query succeeds, that is all the bundle says. */
  lemma NothingCollected(limit: nat, startedAt: int)
    ensures var b := Collect(Failed, Failed, limit, startedAt);
            b.alertEvidence == [] && forall e | e in b.logEvidence :: e.status.QUERY_FAILED?
  {
    hide Fits;
    var app, my := NormalizeApplication(Failed, limit), NormalizeMysql(Failed, limit);
    var whole := Whole(Failed, Failed, limit, startedAt);
    CombinedReserves(app, my);
    assert forall i | 0 <= i < |whole.logEvidence| :: whole.logEvidence[i].status.QUERY_FAILED?;
  }

  lemma NormalizedWithinLimits(application: Response<Line>, mysql: Response<Option<Line>>, limit: nat)
    requires limit <= 200 && ApplicationFits(application) && MysqlFits(mysql)
    ensures forall e | e in NormalizeApplication(application, limit) :: WithinFieldLimits(e)
    ensures forall e | e in NormalizeMysql(mysql, limit) :: WithinFieldLimits(e)
  {
    if application.Streams? {
      LinesWithinLimits(Take(Flatten(application.streams), limit), "application_no_matching_logs");
    }
    if mysql.Streams? && AllParse(Take(Flatten(mysql.streams), limit)) {
      var used := Take(Flatten(mysql.streams), limit);
      forall l | l in Parsed(used) ensures LineFits(l) {
        var i :| 0 <= i < |used| && used[i].value == l;
        assert used[i] in Flatten(mysql.streams);
      }
      LinesWithinLimits(Parsed(used), "mysql_lock_no_matching_logs");
    }
  }

  lemma CombinedWithinLimits(app: seq<LogEvidence>, my: seq<LogEvidence>)
    requires forall e | e in app :: WithinFieldLimits(e)
    requires forall e | e in my :: WithinFieldLimits(e)
    ensures forall e | e in Combined(app, my) :: WithinFieldLimits(e) && |e.id| <= 3
  {
    var all := Combined(app, my);
    CombinedReserves(app, my);
    forall e | e in all ensures WithinFieldLimits(e) && |e.id| <= 3 {
      var i :| 0 <= i < |all| && all[i] == e;
      var a := Min(10, |app|);
      var source := if i < a then app[i] else my[i - a];
      assert source in app || source in my;
      assert e.id == LogId(i + 1);
    }
  }

  /** Truncation of any list of items within the field limits. */
  lemma TruncateWithinCap(b: EvidenceBundle)
    requires b.logEvidence != []
    requires forall e | e in b.logEvidence :: WithinFieldLimits(e) && |e.id| <= 3
    ensures var k := |Truncate(b).logEvidence|;
            && 1 <= k <= |b.logEvidence| && Truncate(b) == Prefix(b, k) && Fits(Truncate(b))
            && forall j | k < j <= |b.logEvidence| :: !Fits(Prefix(b, j))
  {
    LongestFitIsLongest(b, |b.logEvidence|);
    if LongestFit(b, |b.logEvidence|) == 1 {
      assert b.logEvidence[0] in b.logEvidence;
      OneItemFits(Prefix(b, 1));
    }
  }

  /** The collected bundle is within the cap and is the longest prefix that is; nothing is stripped. */
  lemma CollectedWithinCap(application: Response<Line>, mysql: Response<Option<Line>>, limit: nat, startedAt: int)
    requires limit <= 200 && ApplicationFits(application) && MysqlFits(mysql)
    ensures var b := Collect(application, mysql, limit, startedAt);
            var whole := Whole(application, mysql, limit, startedAt);
            var k := |b.logEvidence|;
            && 1 <= k <= |whole.logEvidence| && b == Prefix(whole, k) && Fits(b)
            && (forall j | k < j <= |whole.logEvidence| :: !Fits(Prefix(whole, j)))
            && (b.truncated <==> k < |whole.logEvidence|)
            && forall e | e in b.logEvidence :: WithinFieldLimits(e)
  {
    var whole := Whole(application, mysql, limit, startedAt);
    NormalizedWithinLimits(application, mysql, limit);
    CombinedWithinLimits(NormalizeApplication(application, limit), NormalizeMysql(mysql, limit));
    WholeIsWellNumbered(application, mysql, limit, startedAt);
    TruncateWithinCap(whole);
  }
}
