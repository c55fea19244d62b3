/**
 The alpha-control catalog, in its two versions: three components under "ACA1" and four under "ACA2", otherwise laid
 out alike. A 32-byte field is the number its bytes spell.
 */
module AlphaCatalog {
  import opened Common
  import opened BigEndian

  datatype Component = Component(kind: nat, root: nat, generation: nat, notAfter: nat, size: nat, digest: nat)

  datatype Catalog = Catalog(cohort: seq<Byte>, generation: nat, notBefore: nat, notAfter: nat, previous: nat,
                             components: seq<Component>)

  datatype Version = V1 | V2

  const MAXIMUM_COHORT := 64
  const MAXIMUM_SIZE := 64 * 1024 * 1024
  const COMPONENT_SIZE := 85
  const FIXED_SIZE := 57

  /** Seconds between the zero time and the Unix epoch. */
  const EPOCH := 62135596800

  function Count(v: Version): nat {
    if v.V1? then 3 else 4
  }

  /** "ACA1" and 1, "ACA2" and 2. */
  function Magic(v: Version): seq<Byte> {
    if v.V1? then [0x41, 0x43, 0x41, 0x31, 1] else [0x41, 0x43, 0x41, 0x32, 2]
  }

  /** The instant of a Unix time: seconds since the zero time in 64 signed bits, wrapping as the time package does. */
  function Instant(t: nat): int {
    if t + EPOCH < INT64_LIMIT then t + EPOCH else t + EPOCH - UINT64_LIMIT
  }

  /** A second later, saturating as the time package does. */
  function NextSecond(instant: int): int {
    if instant + 1 < INT64_LIMIT then instant + 1 else INT64_LIMIT - 1
  }

  predicate FitsComponent(c: Component) {
    && c.kind < 256 && c.root < Span(32) && c.generation < Span(8) && c.notAfter < INT64_LIMIT
    && c.size < Span(4) && c.digest < Span(32)
  }

  /** The fields fit their fixed widths. */
  predicate Fits(c: Catalog) {
    && |c.cohort| < 256 && c.generation < Span(8) && c.notBefore < INT64_LIMIT && c.notAfter < INT64_LIMIT
    && c.previous < Span(32) && forall k <- c.components :: FitsComponent(k)
  }

  /** validCatalog and validCatalogV2. */
  predicate Valid(c: Catalog, v: Version) {
    && 0 < |c.cohort| <= MAXIMUM_COHORT && c.generation != 0 && Instant(c.notBefore) < Instant(c.notAfter)
    && |c.components| == Count(v)
    && forall i :: 0 <= i < |c.components| ==> ValidComponent(c.components[i], i, c.notAfter)
  }

  predicate ValidComponent(k: Component, index: nat, notAfter: nat) {
    && k.kind == index + 1 && k.root != 0 && k.generation != 0 && Instant(k.notAfter) < NextSecond(Instant(notAfter))
    && 0 < k.size <= MAXIMUM_SIZE && k.digest != 0
  }

  // ---------- the payload of a catalog ----------

  lemma SecondsFit(t: nat)
    requires t < INT64_LIMIT
    ensures t < Span(8)
  {
    SpanOfEight();
  }

  lemma SpanOfEight()
    ensures Span(8) == UINT64_LIMIT
  {
    assert Span(4) == 256 * Span(3) && Span(3) == 256 * Span(2) && Span(2) == 256 * Span(1) && Span(1) == 256;
    assert Span(8) == 256 * Span(7) && Span(7) == 256 * Span(6) && Span(6) == 256 * Span(5) && Span(5) == 256 * Span(4);
  }

  function Entry(k: Component): (b: seq<Byte>)
    requires FitsComponent(k)
    ensures |b| == COMPONENT_SIZE
  {
    SecondsFit(k.notAfter);
    [k.kind] + Bytes(k.root, 32) + Bytes(k.generation, 8) + Bytes(k.notAfter, 8) + Bytes(k.size, 4) + Bytes(k.digest, 32)
  }

  function Entries(components: seq<Component>): (b: seq<Byte>)
    requires forall k <- components :: FitsComponent(k)
    ensures |b| == COMPONENT_SIZE * |components|
  {
    if components == [] then []
    else
      var last := |components| - 1;
      Entries(components[..last]) + Entry(components[last])
  }

  /** Generation, validity, predecessor and component count. */
  function Fixed(c: Catalog): (b: seq<Byte>)
    requires Fits(c) && |c.components| < 256
    ensures |b| == FIXED_SIZE
  {
    SecondsFit(c.notBefore); SecondsFit(c.notAfter);
    Bytes(c.generation, 8) + Bytes(c.notBefore, 8) + Bytes(c.notAfter, 8) + Bytes(c.previous, 32) + [|c.components|]
  }

  function Image(c: Catalog, v: Version): (b: seq<Byte>)
    requires Fits(c) && |c.components| == Count(v)
    ensures |b| == 6 + |c.cohort| + FIXED_SIZE + COMPONENT_SIZE * Count(v)
  {
    Magic(v) + [|c.cohort|] + c.cohort + Fixed(c) + Entries(c.components)
  }

  ghost predicate IsImage(payload: seq<Byte>, c: Catalog, v: Version) {
    Fits(c) && Valid(c, v) && Image(c, v) == payload
  }

  /** What decoding must give: the valid catalog whose image the payload is. */
  ghost function Decoded(payload: seq<Byte>, v: Version): Option<Catalog> {
    if exists c :: IsImage(payload, c, v) then
      var c :| IsImage(payload, c, v);
      Some(c)
    else None
  }

  // ---------- reading the fixed offsets ----------

  function ReadEntry(e: seq<Byte>): Component
    requires |e| == COMPONENT_SIZE
  {
    Component(e[0], Number(e[1..33]), Number(e[33..41]), Number(e[41..49]), Number(e[49..53]), Number(e[53..85]))
  }

  lemma EntryParts(a: seq<Byte>, b: seq<Byte>, c: seq<Byte>, d: seq<Byte>, e: seq<Byte>, f: seq<Byte>)
    requires |a| == 1 && |b| == 32 && |c| == 8 && |d| == 8 && |e| == 4 && |f| == 32
    ensures var s := a + b + c + d + e + f;
            s[0] == a[0] && s[1..33] == b && s[33..41] == c && s[41..49] == d && s[49..53] == e && s[53..85] == f
  {
  }

  lemma ReadOfEntry(k: Component)
    requires FitsComponent(k)
    ensures ReadEntry(Entry(k)) == k
  {
    hide Span, Number, Bytes;
    SecondsFit(k.notAfter);
    EntryParts([k.kind], Bytes(k.root, 32), Bytes(k.generation, 8), Bytes(k.notAfter, 8), Bytes(k.size, 4), Bytes(k.digest, 32));
    NumberOfBytes(k.root, 32);
    NumberOfBytes(k.generation, 8);
    NumberOfBytes(k.notAfter, 8);
    NumberOfBytes(k.size, 4);
    NumberOfBytes(k.digest, 32);
  }

  /** Everything but the sign of the expiry fits by itself. */
  lemma EntryOfRead(e: seq<Byte>)
    requires |e| == COMPONENT_SIZE
    ensures FitsComponent(ReadEntry(e)) <==> ReadEntry(e).notAfter < INT64_LIMIT
    ensures FitsComponent(ReadEntry(e)) ==> Entry(ReadEntry(e)) == e
  {
    hide Span, Number, Bytes;
    BytesOfNumber(e[1..33]);
    BytesOfNumber(e[33..41]);
    BytesOfNumber(e[41..49]);
    BytesOfNumber(e[49..53]);
    BytesOfNumber(e[53..85]);
    assert e == [e[0]] + e[1..33] + e[33..41] + e[41..49] + e[49..53] + e[53..85];
  }

  function Slice(e: seq<Byte>, i: nat): (b: seq<Byte>)
    requires COMPONENT_SIZE * (i + 1) <= |e|
    ensures |b| == COMPONENT_SIZE
  {
    e[COMPONENT_SIZE * i..COMPONENT_SIZE * (i + 1)]
  }

  function ReadEntries(e: seq<Byte>, n: nat): (components: seq<Component>)
    requires COMPONENT_SIZE * n <= |e|
    ensures |components| == n
  {
    if n == 0 then [] else ReadEntries(e, n - 1) + [ReadEntry(Slice(e, n - 1))]
  }

  lemma {:induction false} ReadOfEntries(components: seq<Component>, tail: seq<Byte>)
    requires forall k <- components :: FitsComponent(k)
    ensures ReadEntries(Entries(components) + tail, |components|) == components
  {
    hide FitsComponent, Entry, ReadEntry;
    if components != [] {
      var last := |components| - 1;
      var e := Entries(components) + tail;
      assert e == Entries(components[..last]) + (Entry(components[last]) + tail);
      ReadOfEntries(components[..last], Entry(components[last]) + tail);
      assert Slice(e, last) == Entry(components[last]);
      ReadOfEntry(components[last]);
    }
  }

  lemma EntriesAppend(components: seq<Component>, k: Component)
    requires (forall c <- components :: FitsComponent(c)) && FitsComponent(k)
    ensures forall c <- components + [k] :: FitsComponent(c)
    ensures Entries(components + [k]) == Entries(components) + Entry(k)
  {
    hide FitsComponent, Entry;
    assert (components + [k])[..|components|] == components;
  }

  lemma SliceExtends(e: seq<Byte>, n: nat)
    requires n > 0 && COMPONENT_SIZE * n <= |e|
    ensures e[..COMPONENT_SIZE * n] == e[..COMPONENT_SIZE * (n - 1)] + Slice(e, n - 1)
  {
  }

  lemma {:induction false} EntriesOfRead(e: seq<Byte>, n: nat)
    requires COMPONENT_SIZE * n <= |e| && forall k <- ReadEntries(e, n) :: FitsComponent(k)
    ensures Entries(ReadEntries(e, n)) == e[..COMPONENT_SIZE * n]
  {
    hide FitsComponent, Entry, ReadEntry, Slice;
    if n > 0 {
      var before, k := ReadEntries(e, n - 1), ReadEntry(Slice(e, n - 1));
      assert ReadEntries(e, n) == before + [k];
      assert k in before + [k] && forall c <- before :: c in before + [k];
      EntriesOfRead(e, n - 1);
      EntriesAppend(before, k);
      EntryOfRead(Slice(e, n - 1));
      SliceExtends(e, n);
    }
  }

  // ---------- a whole payload ----------

  /** The lengths and counts agree with the version. */
  predicate Framed(p: seq<Byte>, v: Version) {
    && |p| >= 6 && p[..5] == Magic(v) && 0 < p[5] <= MAXIMUM_COHORT
    && |p| == 6 + p[5] + FIXED_SIZE + COMPONENT_SIZE * Count(v)
    && p[6 + p[5] + FIXED_SIZE - 1] == Count(v)
  }

  function Parsed(p: seq<Byte>, v: Version): Catalog
    requires Framed(p, v)
  {
    var f := p[6 + p[5]..6 + p[5] + FIXED_SIZE];
    Catalog(p[6..6 + p[5]], Number(f[0..8]), Number(f[8..16]), Number(f[16..24]), Number(f[24..56]),
            ReadEntries(p[6 + p[5] + FIXED_SIZE..], Count(v)))
  }

  lemma FixedParts(a: seq<Byte>, b: seq<Byte>, c: seq<Byte>, d: seq<Byte>, e: seq<Byte>)
    requires |a| == 8 && |b| == 8 && |c| == 8 && |d| == 32 && |e| == 1
    ensures var s := a + b + c + d + e;
            s[0..8] == a && s[8..16] == b && s[16..24] == c && s[24..56] == d && s[56] == e[0]
  {
  }

  lemma FixedReads(c: Catalog)
    requires Fits(c) && |c.components| < 256
    ensures var f := Fixed(c);
            Number(f[0..8]) == c.generation && Number(f[8..16]) == c.notBefore && Number(f[16..24]) == c.notAfter
            && Number(f[24..56]) == c.previous && f[56] == |c.components|
  {
    hide Span, Number, Bytes, FitsComponent;
    SecondsFit(c.notBefore);
    SecondsFit(c.notAfter);
    FixedParts(Bytes(c.generation, 8), Bytes(c.notBefore, 8), Bytes(c.notAfter, 8), Bytes(c.previous, 32), [|c.components|]);
    NumberOfBytes(c.generation, 8);
    NumberOfBytes(c.notBefore, 8);
    NumberOfBytes(c.notAfter, 8);
    NumberOfBytes(c.previous, 32);
  }

  lemma ImageParts(magic: seq<Byte>, length: seq<Byte>, cohort: seq<Byte>, f: seq<Byte>, entries: seq<Byte>)
    requires |magic| == 5 && |length| == 1 && |f| == FIXED_SIZE
    ensures var s, n := magic + length + cohort + f + entries, 6 + |cohort|;
            && s[..5] == magic && s[5] == length[0] && s[6..n] == cohort
            && s[n..n + FIXED_SIZE] == f && s[n + FIXED_SIZE..] == entries && s[n + FIXED_SIZE - 1] == f[56]
  {
  }

  /** An image is read back as the catalog it was made of. */
  lemma ImageIsParsed(p: seq<Byte>, c: Catalog, v: Version)
    requires IsImage(p, c, v)
    ensures Framed(p, v) && Parsed(p, v) == c
  {
    hide Span, Number, FitsComponent, ValidComponent, Fixed, Entries;
    ImageParts(Magic(v), [|c.cohort|], c.cohort, Fixed(c), Entries(c.components));
    FixedReads(c);
    ReadOfEntries(c.components, []);
    assert Entries(c.components) + [] == Entries(c.components);
  }

  lemma FixedOfRead(c: Catalog, f: seq<Byte>)
    requires Fits(c) && |c.components| < 256 && |f| == FIXED_SIZE && f[56] == |c.components|
    requires c.generation == Number(f[0..8]) && c.notBefore == Number(f[8..16]) && c.notAfter == Number(f[16..24])
    requires c.previous == Number(f[24..56])
    ensures Fixed(c) == f
  {
    hide Span, Number, Bytes, FitsComponent;
    SecondsFit(c.notBefore);
    SecondsFit(c.notAfter);
    BytesOfNumber(f[0..8]);
    BytesOfNumber(f[8..16]);
    BytesOfNumber(f[16..24]);
    BytesOfNumber(f[24..56]);
    assert f == f[0..8] + f[8..16] + f[16..24] + f[24..56] + [f[56]];
  }

  /** What is read fits apart from the signs of the times, and its image is the payload. */
  lemma ParsedIsImage(p: seq<Byte>, v: Version)
    requires Framed(p, v) && Fits(Parsed(p, v)) && Valid(Parsed(p, v), v)
    ensures IsImage(p, Parsed(p, v), v)
  {
    hide Span, Number, FitsComponent, ValidComponent, Fixed, Entries;
    var c, l := Parsed(p, v), p[5];
    FixedOfRead(c, p[6 + l..6 + l + FIXED_SIZE]);
    var e := p[6 + l + FIXED_SIZE..];
    EntriesOfRead(e, Count(v));
    assert e[..COMPONENT_SIZE * Count(v)] == e;
    assert p == p[..5] + [p[5]] + p[6..6 + l] + p[6 + l..6 + l + FIXED_SIZE] + e;
  }

  lemma DecodedImage(p: seq<Byte>, c: Catalog, v: Version)
    requires IsImage(p, c, v)
    ensures Decoded(p, v) == Some(c)
  {
    hide IsImage;
    var found :| IsImage(p, found, v) && Decoded(p, v) == Some(found);
    ImageIsParsed(p, found, v);
    ImageIsParsed(p, c, v);
  }

  /** The meaning of a payload is decided by reading the offsets and checking the result. */
  lemma DecodedByReading(p: seq<Byte>, v: Version)
    ensures Decoded(p, v) == if Framed(p, v) && Fits(Parsed(p, v)) && Valid(Parsed(p, v), v) then Some(Parsed(p, v)) else None
  {
    hide Framed, Fits, Valid, Parsed, IsImage;
    if Framed(p, v) && Fits(Parsed(p, v)) && Valid(Parsed(p, v), v) {
      ParsedIsImage(p, v);
      DecodedImage(p, Parsed(p, v), v);
    } else {
      forall c ensures !IsImage(p, c, v) { NotImage(p, c, v); }
    }
  }

  lemma NotImage(p: seq<Byte>, c: Catalog, v: Version)
    requires !(Framed(p, v) && Fits(Parsed(p, v)) && Valid(Parsed(p, v), v))
    ensures !IsImage(p, c, v)
  {
    hide Framed, Parsed, Image;
    if IsImage(p, c, v) { ImageIsParsed(p, c, v); }
  }

  // ---------- the decoder ----------

  /** decodeCatalogPayload and decodeCatalogV2Payload: total, and exactly the inverse of the image. */
  method Decode(p: seq<Byte>, v: Version) returns (result: Option<Catalog>)
    ensures result == Decoded(p, v)
  {
    DecodedByReading(p, v);
    hide Decoded, Fits, Valid, Number, ReadEntry, FitsComponent;
    if |p| < 6 || p[..5] != Magic(v) { return None; }
    var offset, length := 6, p[5];
    if length == 0 || length > MAXIMUM_COHORT || offset + length + FIXED_SIZE > |p| { return None; }
    var cohort := p[offset..offset + length];
    offset := offset + length;
    var f := p[offset..offset + FIXED_SIZE];
    var generation, notBefore, notAfter := Number(f[0..8]), Number(f[8..16]), Number(f[16..24]);
    if f[56] != Count(v) { return None; }
    offset := offset + FIXED_SIZE;
    var components := DecodeComponents(p[offset..], Count(v));
    if components.None? {
      LateTimes(p, v);
      return None;
    }
    if |p| != offset + COMPONENT_SIZE * Count(v) { return None; }
    var catalog := Catalog(cohort, generation, notBefore, notAfter, Number(f[24..56]), components.value);
    if notBefore >= INT64_LIMIT || notAfter >= INT64_LIMIT {
      LateTimes(p, v);
      return None;
    }
    ReadFits(p, v);
    if !Valid(catalog, v) { return None; }
    return Some(catalog);
  }

  method DecodeComponents(e: seq<Byte>, n: nat) returns (components: Option<seq<Component>>)
    ensures components.Some? <==> COMPONENT_SIZE * n <= |e| && forall k <- ReadEntries(e, n) :: k.notAfter < INT64_LIMIT
    ensures components.Some? ==> components.value == ReadEntries(e, n)
  {
    hide Number;
    var read: seq<Component> := [];
    for index := 0 to n
      invariant COMPONENT_SIZE * index <= |e|
      invariant read == ReadEntries(e, index) && forall k <- read :: k.notAfter < INT64_LIMIT
    {
      if COMPONENT_SIZE * (index + 1) > |e| { return None; }
      var component := ReadEntry(Slice(e, index));
      if component.notAfter >= INT64_LIMIT {
        LateEntry(e, index, n);
        return None;
      }
      read := read + [component];
    }
    return Some(read);
  }

  lemma {:induction false} ReadAt(e: seq<Byte>, n: nat, i: nat)
    requires i < n && COMPONENT_SIZE * n <= |e|
    ensures ReadEntries(e, n)[i] == ReadEntry(Slice(e, i))
  {
    hide ReadEntry;
    if i < n - 1 { ReadAt(e, n - 1, i); }
  }

  lemma LateEntry(e: seq<Byte>, i: nat, n: nat)
    requires i < n && COMPONENT_SIZE * (i + 1) <= |e| && ReadEntry(Slice(e, i)).notAfter >= INT64_LIMIT
    ensures COMPONENT_SIZE * n <= |e| ==> exists k <- ReadEntries(e, n) :: k.notAfter >= INT64_LIMIT
  {
    hide ReadEntry;
    if COMPONENT_SIZE * n <= |e| {
      ReadAt(e, n, i);
      assert ReadEntries(e, n)[i] in ReadEntries(e, n);
    }
  }

  /** A time beyond 63 bits, of the catalog or of a component, does not fit. */
  lemma LateTimes(p: seq<Byte>, v: Version)
    ensures Framed(p, v) && Fits(Parsed(p, v)) ==>
              && Parsed(p, v).notBefore < INT64_LIMIT && Parsed(p, v).notAfter < INT64_LIMIT
              && forall k <- Parsed(p, v).components :: k.notAfter < INT64_LIMIT
  {
    hide Parsed;
  }

  /** Times within 63 bits are all a read catalog needs to fit. */
  lemma ReadFits(p: seq<Byte>, v: Version)
    requires Framed(p, v)
    requires Parsed(p, v).notBefore < INT64_LIMIT && Parsed(p, v).notAfter < INT64_LIMIT
    requires forall k <- Parsed(p, v).components :: k.notAfter < INT64_LIMIT
    ensures Fits(Parsed(p, v))
  {
    hide Number, ReadEntry, Span, FitsComponent;
    var c, l := Parsed(p, v), p[5];
    var f, e := p[6 + l..6 + l + FIXED_SIZE], p[6 + l + FIXED_SIZE..];
    NumberFits(f[0..8]);
    NumberFits(f[24..56]);
    forall k | k in c.components ensures FitsComponent(k) {
      var i :| 0 <= i < |c.components| && c.components[i] == k;
      ReadAt(e, Count(v), i);
      EntryOfRead(Slice(e, i));
    }
  }

  // ---------- what that means ----------

  lemma EncodedDecodes(c: Catalog, v: Version)
    requires Fits(c) && Valid(c, v)
    ensures Decoded(Image(c, v), v) == Some(c)
  {
    DecodedImage(Image(c, v), c, v);
  }

  /** There is one payload for each catalog. */
  lemma Canonical(p: seq<Byte>, q: seq<Byte>, v: Version)
    requires Decoded(p, v).Some? && Decoded(p, v) == Decoded(q, v)
    ensures p == q
  {
    hide Fits, Valid, Image;
    var c := Decoded(p, v).value;
    assert IsImage(p, c, v) && IsImage(q, c, v);
  }

  /** No payload is a catalog of both versions. */
  lemma OneVersion(p: seq<Byte>)
    ensures Decoded(p, V1).None? || Decoded(p, V2).None?
  {
    hide Decoded, Fits, Valid, Parsed;
    DecodedByReading(p, V1);
    DecodedByReading(p, V2);
    assert Magic(V1)[4] != Magic(V2)[4];
  }

  /** Times that the signed 64-bit count of seconds can hold. */
  predicate PlainTimes(c: Catalog) {
    && c.notBefore + EPOCH + 1 < INT64_LIMIT && c.notAfter + EPOCH + 1 < INT64_LIMIT
    && forall k <- c.components :: k.notAfter + EPOCH + 1 < INT64_LIMIT
  }

  /**
   At such times a catalog decodes from its image exactly if it names a cohort, has a generation and some validity, and
   its components, of kinds one, two, three and so on, are complete, of at most 64 mebibytes, and valid no longer than it.
   */
  lemma PlainDecodes(c: Catalog, v: Version)
    requires Fits(c) && |c.components| == Count(v) && PlainTimes(c)
    ensures Decoded(Image(c, v), v) == Some(c)
            <==> && 1 <= |c.cohort| <= 64 && c.generation > 0 && c.notBefore < c.notAfter
                 && forall i :: 0 <= i < |c.components| ==>
                      var k := c.components[i];
                      && k.kind == i + 1 && k.root > 0 && k.generation > 0 && k.digest > 0
                      && k.notAfter <= c.notAfter && 0 < k.size <= 67108864
  {
    hide Fits, Image;
    if Valid(c, v) {
      EncodedDecodes(c, v);
    }
    assert forall i :: 0 <= i < |c.components| ==> c.components[i] in c.components;
  }
}
