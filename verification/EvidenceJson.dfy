/** The JSON text of a bundle, whose UTF-8 length is the size that truncation goes by (collectors/loki.py). */
module EvidenceJson {
  import opened Common
  import opened Evidence
  import Grouping
  import opened Loki

  // ---------------------------------------------------------------- strings

  function HexDigit(d: nat): char
    requires d < 16
  {
    "0123456789abcdef"[d]
  }

  /** A character inside a JSON string. */
  function EscapedChar(c: char): string {
    match c
    case '"' => "\\\""
    case '\\' => "\\\\"
    case '\U{0008}' => "\\b"
    case '\t' => "\\t"
    case '\n' => "\\n"
    case '\U{000C}' => "\\f"
    case '\r' => "\\r"
    case _ =>
      var u := c as int;
      if u < 0x20 then ['\\', 'u', '0', '0', HexDigit(u / 16), HexDigit(u % 16)] else [c]
  }

  function Escaped(s: string): string {
    if s == "" then "" else EscapedChar(s[0]) + Escaped(s[1..])
  }

  function Quote(s: string): string {
    "\"" + Escaped(s) + "\""
  }

  function Utf8Bytes(c: char): nat {
    var u := c as int;
    if u < 0x80 then 1 else if u < 0x800 then 2 else if u < 0x10000 then 3 else 4
  }

  function Utf8Length(s: string): nat {
    if s == "" then 0 else Utf8Bytes(s[0]) + Utf8Length(s[1..])
  }

  lemma {:induction false} Utf8Concat(a: string, b: string)
    ensures Utf8Length(a + b) == Utf8Length(a) + Utf8Length(b)
  {
    if a == "" {
      assert a + b == b;
    } else {
      assert (a + b)[1..] == a[1..] + b;
      Utf8Concat(a[1..], b);
    }
  }

  ghost predicate IsAscii(s: string) {
    forall i | 0 <= i < |s| :: s[i] as int < 0x80
  }

  lemma {:induction false} Utf8Ascii(s: string)
    requires IsAscii(s)
    ensures Utf8Length(s) == |s|
  {
    if s != "" {
      Utf8Ascii(s[1..]);
    }
  }

  lemma EscapedCharSize(c: char)
    ensures Utf8Length(EscapedChar(c)) == CharBytes(c)
  {
    var t := EscapedChar(c);
    if t == [c] {
      assert t[1..] == "";
    } else {
      Utf8Ascii(t);
    }
  }

  lemma {:induction false} EscapedSize(s: string)
    ensures Utf8Length(Escaped(s)) == TextBytes(s)
  {
    if s != "" {
      EscapedCharSize(s[0]);
      EscapedSize(s[1..]);
      Utf8Concat(EscapedChar(s[0]), Escaped(s[1..]));
    }
  }

  lemma QuoteSize(s: string)
    ensures Utf8Length(Quote(s)) == 2 + TextBytes(s)
  {
    Utf8Ascii("\"");
    EscapedSize(s);
    Utf8Concat("\"", Escaped(s));
    Utf8Concat("\"" + Escaped(s), "\"");
  }

  // ---------------------------------------------------------------- lists

  function Commas(parts: seq<string>): string {
    if parts == [] then ""
    else if |parts| == 1 then parts[0]
    else parts[0] + "," + Commas(parts[1..])
  }

  lemma {:induction false} CommasPushed(parts: seq<string>, x: string)
    ensures Utf8Length(Commas(parts + [x]))
            == Utf8Length(Commas(parts)) + Utf8Length(x) + if parts == [] then 0 else 1
  {
    Utf8Ascii(",");
    if |parts| == 0 {
      assert parts + [x] == [x];
    } else if |parts| == 1 {
      assert (parts + [x])[1..] == [x];
      Utf8Concat(parts[0], ",");
      Utf8Concat(parts[0] + ",", x);
    } else {
      var rest := parts[1..];
      assert (parts + [x])[1..] == rest + [x];
      CommasPushed(rest, x);
      Utf8Concat(parts[0], ",");
      Utf8Concat(parts[0] + ",", Commas(rest + [x]));
      Utf8Concat(parts[0] + ",", Commas(rest));
    }
  }

  function Quotes(samples: seq<string>): seq<string> {
    seq(|samples|, i requires 0 <= i < |samples| => Quote(samples[i]))
  }

  lemma {:induction false} SamplesSize(samples: seq<string>)
    ensures Utf8Length(Commas(Quotes(samples))) == SamplesBytes(samples)
  {
    if samples != [] {
      var q := Quotes(samples);
      QuoteSize(samples[0]);
      SamplesSize(samples[1..]);
      assert q[1..] == Quotes(samples[1..]);
      if |samples| > 1 {
        Utf8Ascii(",");
        Utf8Concat(q[0], ",");
        Utf8Concat(q[0] + ",", Commas(q[1..]));
      }
    }
  }

  // ---------------------------------------------------------------- one item

  function ItemJson(e: LogEvidence): string {
    "{\"evidence_id\":" + Quote(e.id) + ",\"status\":\"" + StatusName(e.status)
    + "\",\"signature\":" + Quote(e.signature) + ",\"count\":" + Decimal(e.count)
    + ",\"samples\":[" + Commas(Quotes(e.samples)) + "]}"
  }

  /** An id such as L7 needs no escapes. */
  ghost predicate IsPlain(s: string) {
    TextBytes(s) == |s|
  }

  lemma LiteralSizes()
    ensures Utf8Length("{\"evidence_id\":") == 15 && Utf8Length(",\"status\":\"") == 11
    ensures Utf8Length("\",\"signature\":") == 14 && Utf8Length(",\"count\":") == 9
    ensures Utf8Length(",\"samples\":[") == 12 && Utf8Length("]}") == 2
  {
    hide Utf8Length;
    Utf8Ascii("{\"evidence_id\":");
    Utf8Ascii(",\"status\":\"");
    Utf8Ascii("\",\"signature\":");
    Utf8Ascii(",\"count\":");
    Utf8Ascii(",\"samples\":[");
    Utf8Ascii("]}");
  }

  lemma WordSizes(e: LogEvidence)
    ensures Utf8Length(StatusName(e.status)) == StatusBytes(e.status)
    ensures Utf8Length(Decimal(e.count)) == |Decimal(e.count)|
  {
    hide Utf8Length, Decimal;
    Utf8Ascii(StatusName(e.status));
    DecimalReadsBack(e.count);
    assert forall i | 0 <= i < |Decimal(e.count)| :: Decimal(e.count)[i] in Decimal(e.count);
    Utf8Ascii(Decimal(e.count));
  }

  lemma ItemSize(e: LogEvidence)
    requires IsPlain(e.id)
    ensures Utf8Length(ItemJson(e)) == ItemBytes(e)
  {
    hide Utf8Length, Quote, StatusName, Decimal, Commas, Quotes, TextBytes, SamplesBytes, StatusBytes;
    LiteralSizes();
    WordSizes(e);
    QuoteSize(e.id);
    QuoteSize(e.signature);
    SamplesSize(e.samples);
    var t1 := "{\"evidence_id\":" + Quote(e.id);
    var t2 := t1 + ",\"status\":\"" + StatusName(e.status);
    var t3 := t2 + "\",\"signature\":" + Quote(e.signature);
    var t4 := t3 + ",\"count\":" + Decimal(e.count);
    var t5 := t4 + ",\"samples\":[" + Commas(Quotes(e.samples));
    Utf8Concat("{\"evidence_id\":", Quote(e.id));
    TwoMore(t1, ",\"status\":\"", StatusName(e.status));
    TwoMore(t2, "\",\"signature\":", Quote(e.signature));
    TwoMore(t3, ",\"count\":", Decimal(e.count));
    TwoMore(t4, ",\"samples\":[", Commas(Quotes(e.samples)));
    Utf8Concat(t5, "]}");
    assert ItemJson(e) == t5 + "]}";
  }

  lemma TwoMore(a: string, b: string, c: string)
    ensures Utf8Length(a + b + c) == Utf8Length(a) + Utf8Length(b) + Utf8Length(c)
  {
    Utf8Concat(a, b);
    Utf8Concat(a + b, c);
  }

  // ---------------------------------------------------------------- the bundle

  function ItemsJson(items: seq<LogEvidence>): seq<string> {
    seq(|items|, i requires 0 <= i < |items| => ItemJson(items[i]))
  }

  lemma {:induction false} ItemsSize(items: seq<LogEvidence>)
    requires forall e | e in items :: IsPlain(e.id)
    ensures Utf8Length(Commas(ItemsJson(items))) == ListBytes(items)
  {
    hide IsPlain, ItemJson, ItemBytes;
    if items != [] {
      var front := items[..|items| - 1];
      ItemsSize(front);
      ItemSize(Last(items));
      CommasPushed(ItemsJson(front), ItemJson(Last(items)));
      assert ItemsJson(items) == ItemsJson(front) + [ItemJson(Last(items))];
    }
  }

  /** What the text takes from elsewhere: the two instants in ISO form and the hashes of the two queries. */
  datatype Parts = Parts(windowStart: string, windowEnd: string, application: string, mysql: string)

  ghost predicate PartsOf(p: Parts, b: EvidenceBundle) {
    && IsAscii(p.windowStart) && |p.windowStart| == InstantBytes(b.windowStart)
    && IsAscii(p.windowEnd) && |p.windowEnd| == InstantBytes(b.windowEnd)
    && IsAscii(p.application) && |p.application| == 64 && IsAscii(p.mysql) && |p.mysql| == 64
  }

  const SCHEMA := "{\"schema_version\":\"1\",\"collector_version\""
  const FROM := ":\"loki-mysql-v2\",\"window_start\":\""
  const UNTIL := "\",\"window_end\":\""
  const ITEMS := "\",\"log_evidence\":["
  const REST := "],\"alert_evidence\":[],\"metadata\":{"
  const APPLICATION := "\"application_query_sha256\":\""
  const MYSQL := "\",\"mysql_lock_query_sha256\":\""
  const CUT := ",\"truncated\":true"

  /** model_dump_json of the bundle as _bundle builds it. */
  function BundleJson(b: EvidenceBundle, p: Parts): string {
    SCHEMA + FROM + p.windowStart + UNTIL + p.windowEnd + ITEMS + Commas(ItemsJson(b.logEvidence))
    + REST + APPLICATION + p.application + MYSQL + p.mysql + (if b.truncated then "\"" + CUT else "\"") + "}}"
  }

  lemma HeadSizes()
    ensures Utf8Length(SCHEMA) + Utf8Length(FROM) == 74 && Utf8Length(UNTIL) == 16 && Utf8Length(ITEMS) == 18
  {
    hide Utf8Length;
    Utf8Ascii(SCHEMA);
    Utf8Ascii(FROM);
    Utf8Ascii(UNTIL);
    Utf8Ascii(ITEMS);
  }

  lemma TailSizes()
    ensures Utf8Length(REST) + Utf8Length(APPLICATION) == 62
  {
    hide Utf8Length;
    Utf8Ascii(REST);
    Utf8Ascii(APPLICATION);
  }

  lemma EndSizes()
    ensures Utf8Length(MYSQL) == 29 && Utf8Length(CUT) == 17 && Utf8Length("\"") == 1 && Utf8Length("}}") == 2
  {
    hide Utf8Length;
    Utf8Ascii(MYSQL);
    Utf8Ascii(CUT);
    Utf8Ascii("\"");
    Utf8Ascii("}}");
  }

  /** BundleBytes is the number of bytes of that text in UTF-8. */
  lemma BundleSize(b: EvidenceBundle, p: Parts)
    requires PartsOf(p, b) && forall e | e in b.logEvidence :: IsPlain(e.id)
    ensures Utf8Length(BundleJson(b, p)) == BundleBytes(b)
  {
    hide Utf8Length, Commas, ItemsJson, IsAscii, ListBytes, InstantBytes;
    HeadSizes();
    TailSizes();
    EndSizes();
    Utf8Ascii(p.windowStart);
    Utf8Ascii(p.windowEnd);
    Utf8Ascii(p.application);
    Utf8Ascii(p.mysql);
    ItemsSize(b.logEvidence);
    var t1 := SCHEMA + FROM + p.windowStart;
    var t2 := t1 + UNTIL + p.windowEnd;
    var t3 := t2 + ITEMS + Commas(ItemsJson(b.logEvidence));
    var t4 := t3 + REST;
    var t5 := t4 + APPLICATION + p.application;
    var t6 := t5 + MYSQL + p.mysql;
    var end := if b.truncated then "\"" + CUT else "\"";
    TwoMore(SCHEMA, FROM, p.windowStart);
    TwoMore(t1, UNTIL, p.windowEnd);
    TwoMore(t2, ITEMS, Commas(ItemsJson(b.logEvidence)));
    Utf8Concat(t3, REST);
    TwoMore(t4, APPLICATION, p.application);
    TwoMore(t5, MYSQL, p.mysql);
    Utf8Concat("\"", CUT);
    TwoMore(t6, end, "}}");
    assert BundleJson(b, p) == t6 + end + "}}";
  }

  lemma {:induction false} PlainText(s: string)
    requires forall i | 0 <= i < |s| :: ' ' <= s[i] <= '~' && s[i] != '"' && s[i] != '\\'
    ensures IsPlain(s)
  {
    if s != "" {
      PlainText(s[1..]);
    }
  }

  lemma IdsArePlain(b: EvidenceBundle)
    requires WellNumbered(b)
    ensures forall e | e in b.logEvidence :: IsPlain(e.id)
  {
    hide Decimal, IsPlain;
    forall e | e in b.logEvidence ensures IsPlain(e.id) {
      var i :| 0 <= i < |b.logEvidence| && b.logEvidence[i] == e;
      DecimalReadsBack(i + 1);
      assert forall j | 1 <= j < |e.id| :: e.id[j] in Decimal(i + 1);
      PlainText(LogId(i + 1));
    }
  }

  /** Item k of two or more is kept exactly if the text that ends with it is within 16 KiB. */
  lemma KeptIffTextFits(b: EvidenceBundle, k: nat, p: Parts)
    requires 2 <= k <= |b.logEvidence| && WellNumbered(b) && PartsOf(p, b)
    ensures |Truncate(b).logEvidence| >= k <==> Utf8Length(BundleJson(Prefix(b, k), p)) <= 16 * 1024
  {
    hide BundleJson, Utf8Length, IsPlain, Truncate, BundleBytes;
    KeptIff(b, k);
    IdsArePlain(b);
    assert forall e | e in Prefix(b, k).logEvidence :: e in b.logEvidence;
    BundleSize(Prefix(b, k), p);
  }

  /** So what the collector returns is within 16 KiB as text. */
  lemma CollectedTextWithinCap(application: Response<Grouping.Line>, mysql: Response<Option<Grouping.Line>>, limit: nat,
                               startedAt: int, p: Parts)
    requires limit <= 200 && ApplicationFits(application) && MysqlFits(mysql)
    requires PartsOf(p, Collect(application, mysql, limit, startedAt))
    ensures Utf8Length(BundleJson(Collect(application, mysql, limit, startedAt), p)) <= 16 * 1024
  {
    hide Collect, BundleJson, Utf8Length, IsPlain;
    var b := Collect(application, mysql, limit, startedAt);
    CollectedWithinCap(application, mysql, limit, startedAt);
    CollectedIsWellNumbered(application, mysql, limit, startedAt);
    IdsArePlain(b);
    BundleSize(b, p);
  }
}
