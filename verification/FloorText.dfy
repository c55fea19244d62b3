/**
 The text of the authority-floor file: canonical JSON, so that a list of floors has one text and that text one length.
 The file is read back only within its size limit.
 */
module FloorText {
  import opened AuthorityFloor

  datatype Kind = Service | Name | Admission

  /** The four commitments are 32 bytes, kept as 64 lower-case hexadecimal digits. */
  datatype Binding = Binding(environment: string, network: string, root: string, kind: Kind, commitment: string)

  datatype Floor = Floor(binding: Binding, marks: Marks)

  const MAXIMUM_BYTES := 1024 * 1024

  function KindText(kind: Kind): string {
    match kind
    case Service => "service"
    case Name => "name"
    case Admission => "admission"
  }

  // ---------- canonical JSON ----------

  function Digit(n: nat): char
    requires n < 10
  {
    "0123456789"[n]
  }

  function Decimal(n: nat): string {
    if n < 10 then [Digit(n)] else Decimal(n / 10) + [Digit(n % 10)]
  }

  /** The encoder escapes the quote, the backslash and the three characters that matter in HTML. */
  function Escaped(text: string): string {
    if text == [] then []
    else
      (match text[0]
       case '"' => "\\\""
       case '\\' => "\\\\"
       case '<' => "\\u003c"
       case '>' => "\\u003e"
       case '&' => "\\u0026"
       case c => [c]) + Escaped(text[1..])
  }

  function Quoted(text: string): string {
    "\"" + Escaped(text) + "\""
  }

  function Separated(parts: seq<string>): string {
    if parts == [] then []
    else if |parts| == 1 then parts[0]
    else parts[0] + "," + Separated(parts[1..])
  }

  function WatermarkText(w: Watermark): string {
    "{\"Domain\":" + Quoted(w.domain) + ",\"Value\":" + Decimal(w.value) + "}"
  }

  function WatermarkTexts(watermarks: seq<Watermark>): (texts: seq<string>)
    ensures |texts| == |watermarks|
  {
    seq(|watermarks|, i requires 0 <= i < |watermarks| => WatermarkText(watermarks[i]))
  }

  function EntryText(f: Floor): string {
    "{\"environment\":" + Quoted(f.binding.environment) + ",\"network\":" + Quoted(f.binding.network)
    + ",\"root\":" + Quoted(f.binding.root) + ",\"kind\":" + Quoted(KindText(f.binding.kind))
    + ",\"id_commitment\":" + Quoted(f.binding.commitment) + ",\"generation\":" + Decimal(f.marks.generation)
    + ",\"revision\":" + Decimal(f.marks.revision)
    + ",\"watermarks\":[" + Separated(WatermarkTexts(f.marks.watermarks)) + "]}"
  }

  function EntryTexts(floors: seq<Floor>): (texts: seq<string>)
    ensures |texts| == |floors|
  {
    seq(|floors|, i requires 0 <= i < |floors| => EntryText(floors[i]))
  }

  const OPENING := "{\"profile\":\"ardents-authority-floor-v1\",\"schema_version\":1,\"floors\":["
  const CLOSING := "]}"

  function Document(floors: seq<Floor>): string {
    OPENING + Separated(EntryTexts(floors)) + CLOSING
  }

  // ---------- how long it gets ----------

  /** What one floor takes up, with the comma that sets it off. */
  function Weight(f: Floor): nat {
    |EntryText(f)| + 1
  }

  function Occupied(floors: seq<Floor>): nat {
    if floors == [] then 0 else Weight(floors[0]) + Occupied(floors[1..])
  }

  /** All floors together, the first without a comma. */
  function Size(floors: seq<Floor>): nat {
    if floors == [] then |OPENING| + |CLOSING| else |OPENING| + Occupied(floors) - 1 + |CLOSING|
  }

  lemma {:induction false} SeparatedSize(floors: seq<Floor>)
    requires floors != []
    ensures |Separated(EntryTexts(floors))| == Occupied(floors) - 1
  {
    hide EntryText;
    if |floors| > 1 {
      SeparatedSize(floors[1..]);
      assert EntryTexts(floors)[1..] == EntryTexts(floors[1..]);
    }
  }

  /** The length of the file is decided floor by floor. */
  lemma DocumentSize(floors: seq<Floor>)
    ensures |Document(floors)| == Size(floors)
  {
    hide EntryText;
    if floors != [] { SeparatedSize(floors); }
  }

  lemma {:induction false} EscapedAtMost(text: string)
    ensures |Escaped(text)| <= 6 * |text|
  {
    if text != [] { EscapedAtMost(text[1..]); }
  }

  lemma SmallWatermark(w: Watermark)
    requires |w.domain| <= MAXIMUM_DOMAIN && w.value < 10
    ensures |WatermarkText(w)| <= 500
  {
    EscapedAtMost(w.domain);
    hide Escaped;
  }

  lemma SmallWatermarks(watermarks: seq<Watermark>)
    requires |watermarks| <= 2 && forall w <- watermarks :: |w.domain| <= MAXIMUM_DOMAIN && w.value < 10
    ensures |Separated(WatermarkTexts(watermarks))| <= 1001
  {
    hide WatermarkText;
    forall i | 0 <= i < |watermarks| ensures |WatermarkTexts(watermarks)[i]| <= 500 { SmallWatermark(watermarks[i]); }
    ghost var texts := WatermarkTexts(watermarks);
    if |texts| == 2 { assert Separated(texts) == texts[0] + "," + Separated(texts[1..]); }
  }

  /** A floor with two watermarks at most and one-digit numbers takes little room. */
  lemma SmallEntry(f: Floor)
    requires |f.binding.environment| == |f.binding.network| == |f.binding.root| == |f.binding.commitment| == 64
    requires f.marks.generation < 10 && f.marks.revision < 10
    requires |f.marks.watermarks| <= 2 && forall w <- f.marks.watermarks :: |w.domain| <= MAXIMUM_DOMAIN && w.value < 10
    ensures Weight(f) <= 3000
  {
    EscapedAtMost(f.binding.environment);
    EscapedAtMost(f.binding.network);
    EscapedAtMost(f.binding.root);
    EscapedAtMost(f.binding.commitment);
    EscapedAtMost(KindText(f.binding.kind));
    SmallWatermarks(f.marks.watermarks);
    hide Escaped, WatermarkTexts, Separated;
  }
}
