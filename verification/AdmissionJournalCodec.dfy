/** The journal bytes: a magic, a count and fixed-size entries in strictly ascending identifier order. */
module AdmissionJournalCodec {
  import opened Common
  import opened BigEndian
  import opened AdmissionJournal

  /** "ARDALJ01". */
  const MAGIC: seq<Byte> := [0x41, 0x52, 0x44, 0x41, 0x4c, 0x4a, 0x30, 0x31]

  /** The fields fit their fixed widths. */
  predicate Fits(a: Allocation) {
    a.window < Span(8) && a.role < 256 && a.tokens < Span(4) && a.id < Span(32) && a.digest < Span(32)
  }

  function Entry(a: Allocation): (b: seq<Byte>)
    requires Fits(a)
    ensures |b| == ENTRY_SIZE
  {
    Bytes(a.window, 8) + [a.role] + Bytes(a.tokens, 4) + Bytes(a.id, 32) + Bytes(a.digest, 32)
  }

  function Entries(allocations: seq<Allocation>): (b: seq<Byte>)
    requires forall a <- allocations :: Fits(a)
    ensures |b| == ENTRY_SIZE * |allocations|
  {
    if allocations == [] then []
    else
      var last := |allocations| - 1;
      Entries(allocations[..last]) + Entry(allocations[last])
  }

  /** The bytes of allocations already in order. */
  function Image(allocations: seq<Allocation>): (b: seq<Byte>)
    requires |allocations| < Span(4) && forall a <- allocations :: Fits(a)
    ensures |b| == 12 + ENTRY_SIZE * |allocations|
  {
    MAGIC + Bytes(|allocations|, 4) + Entries(allocations)
  }

  /** What a journal may hold. */
  predicate Canonical(allocations: seq<Allocation>) {
    && (forall a <- allocations :: Fits(a) && a.id != 0 && a.digest != 0)
    && Ascending(allocations)
    && WithinBudget(allocations)
  }

  lemma SmallCount(n: nat)
    requires n <= MAXIMUM_ENTRIES
    ensures n < Span(4)
  {
    assert Span(1) == 256 * Span(0);
    assert Span(2) == 256 * Span(1);
    assert Span(3) == 256 * Span(2);
  }

  lemma CanonicalIsSmall(allocations: seq<Allocation>)
    requires Canonical(allocations)
    ensures |allocations| <= MAXIMUM_ENTRIES && |allocations| < Span(4)
    ensures |Image(allocations)| <= MAXIMUM_BYTES
  {
    BudgetBounds(allocations);
    SmallCount(|allocations|);
  }

  /** The bytes are what the encoder's loop makes of the allocations. */
  ghost predicate Spells(raw: seq<Byte>, allocations: seq<Allocation>) {
    |allocations| < Span(4) && (forall a <- allocations :: Fits(a)) && Image(allocations) == raw
  }

  /** The bytes are those of some journal. */
  ghost predicate IsImage(raw: seq<Byte>, allocations: seq<Allocation>) {
    Canonical(allocations) && Spells(raw, allocations)
  }

  /** What decoding must give: nothing for no bytes, and otherwise the journal whose image the bytes are. */
  ghost function Decoded(raw: seq<Byte>): Option<seq<Allocation>> {
    if raw == [] then Some([])
    else if exists allocations :: IsImage(raw, allocations) then
      var allocations :| IsImage(raw, allocations);
      Some(allocations)
    else None
  }

  // ---------- one entry ----------

  function ReadEntry(raw: seq<Byte>, offset: nat): Allocation
    requires offset + ENTRY_SIZE <= |raw|
  {
    Allocation(Number(raw[offset..offset + 8]), raw[offset + 8], Number(raw[offset + 9..offset + 13]),
               Number(raw[offset + 13..offset + 45]), Number(raw[offset + 45..offset + 77]))
  }

  /** The identifier of the entry at an offset, as it stands in the bytes. */
  function IdBytes(raw: seq<Byte>, offset: nat): (b: seq<Byte>)
    requires offset + ENTRY_SIZE <= |raw|
    ensures |b| == 32
  {
    raw[offset + 13..offset + 45]
  }

  lemma EntryOfRead(raw: seq<Byte>, offset: nat)
    requires offset + ENTRY_SIZE <= |raw|
    ensures Fits(ReadEntry(raw, offset)) && Entry(ReadEntry(raw, offset)) == raw[offset..offset + ENTRY_SIZE]
  {
    hide Span, Number, Bytes;
    BytesOfNumber(raw[offset..offset + 8]);
    BytesOfNumber(raw[offset + 9..offset + 13]);
    BytesOfNumber(raw[offset + 13..offset + 45]);
    BytesOfNumber(raw[offset + 45..offset + 77]);
    assert raw[offset..offset + ENTRY_SIZE] == raw[offset..offset + 8] + [raw[offset + 8]] + raw[offset + 9..offset + 13]
                                               + raw[offset + 13..offset + 45] + raw[offset + 45..offset + 77];
  }

  lemma EntryParts(a: seq<Byte>, b: seq<Byte>, c: seq<Byte>, d: seq<Byte>, e: seq<Byte>)
    requires |a| == 8 && |b| == 1 && |c| == 4 && |d| == 32 && |e| == 32
    ensures var s := a + b + c + d + e;
            s[0..8] == a && s[8] == b[0] && s[9..13] == c && s[13..45] == d && s[45..77] == e
  {
  }

  lemma Within(raw: seq<Byte>, offset: nat, size: nat, lo: nat, hi: nat)
    requires lo <= hi <= size && offset + size <= |raw|
    ensures raw[offset..offset + size][lo..hi] == raw[offset + lo..offset + hi]
  {
    var part, whole := raw[offset..offset + size][lo..hi], raw[offset + lo..offset + hi];
    assert forall k :: 0 <= k < |whole| ==> part[k] == whole[k];
  }

  lemma ReadOfEntry(raw: seq<Byte>, offset: nat, a: Allocation)
    requires offset + ENTRY_SIZE <= |raw| && Fits(a) && raw[offset..offset + ENTRY_SIZE] == Entry(a)
    ensures ReadEntry(raw, offset) == a
  {
    hide Span, Number, Bytes;
    EntryParts(Bytes(a.window, 8), [a.role], Bytes(a.tokens, 4), Bytes(a.id, 32), Bytes(a.digest, 32));
    Within(raw, offset, ENTRY_SIZE, 0, 8);
    Within(raw, offset, ENTRY_SIZE, 9, 13);
    Within(raw, offset, ENTRY_SIZE, 13, 45);
    Within(raw, offset, ENTRY_SIZE, 45, 77);
    assert raw[offset + 8] == raw[offset..offset + ENTRY_SIZE][8];
    hide Entry;
    NumberOfBytes(a.window, 8);
    NumberOfBytes(a.tokens, 4);
    NumberOfBytes(a.id, 32);
    NumberOfBytes(a.digest, 32);
  }

  lemma {:induction false} EntriesAt(allocations: seq<Allocation>, i: nat)
    requires i < |allocations| && forall a <- allocations :: Fits(a)
    ensures Entries(allocations)[ENTRY_SIZE * i..ENTRY_SIZE * (i + 1)] == Entry(allocations[i])
  {
    var last := |allocations| - 1;
    if i < last {
      EntriesAt(allocations[..last], i);
      assert Entries(allocations)[..ENTRY_SIZE * last] == Entries(allocations[..last]);
    }
  }

  /** Such bytes can be read back entry by entry. */
  lemma ImageReads(raw: seq<Byte>, allocations: seq<Allocation>)
    requires Spells(raw, allocations)
    ensures raw[..8] == MAGIC && Number(raw[8..12]) == |allocations|
    ensures forall i :: 0 <= i < |allocations| ==> ReadEntry(raw, 12 + ENTRY_SIZE * i) == allocations[i]
  {
    hide Span, Number, Bytes, Fits, Entry, ReadEntry, Ascending, WithinBudget;
    assert raw[8..12] == Bytes(|allocations|, 4);
    NumberOfBytes(|allocations|, 4);
    forall i | 0 <= i < |allocations| ensures ReadEntry(raw, 12 + ENTRY_SIZE * i) == allocations[i] {
      EntriesAt(allocations, i);
      var offset := 12 + ENTRY_SIZE * i;
      assert raw[12..] == Entries(allocations);
      assert raw[offset..offset + ENTRY_SIZE] == raw[12..][ENTRY_SIZE * i..ENTRY_SIZE * (i + 1)];
      ReadOfEntry(raw, offset, allocations[i]);
    }
  }

  /** So one byte string spells one list at most. */
  lemma ImageInjective(raw: seq<Byte>, a: seq<Allocation>, b: seq<Allocation>)
    requires Spells(raw, a) && Spells(raw, b)
    ensures a == b
  {
    ImageReads(raw, a);
    ImageReads(raw, b);
  }

  lemma DecodedImage(raw: seq<Byte>, allocations: seq<Allocation>)
    requires IsImage(raw, allocations)
    ensures Decoded(raw) == Some(allocations)
  {
    var found := Decoded(raw).value;
    assert IsImage(raw, found);
    ImageInjective(raw, found, allocations);
  }

  // ---------- reading a whole string ----------

  /** The header promises a count that the length of the string agrees with. */
  predicate Framed(raw: seq<Byte>) {
    && 12 <= |raw| <= MAXIMUM_BYTES
    && raw[..8] == MAGIC
    && Number(raw[8..12]) <= MAXIMUM_ENTRIES
    && |raw| == 12 + ENTRY_SIZE * Number(raw[8..12])
  }

  /** What the fixed offsets spell. */
  function Parsed(raw: seq<Byte>): (allocations: seq<Allocation>)
    requires Framed(raw)
    ensures |allocations| == Number(raw[8..12])
  {
    seq(Number(raw[8..12]), (i: nat) requires i < Number(raw[8..12]) =>
      assert ENTRY_SIZE * (i + 1) <= ENTRY_SIZE * Number(raw[8..12]);
      ReadEntry(raw, 12 + ENTRY_SIZE * i))
  }

  lemma {:induction false} EntriesOfParsed(raw: seq<Byte>, n: nat)
    requires Framed(raw) && n <= Number(raw[8..12])
    ensures 12 + ENTRY_SIZE * n <= |raw|
    ensures (forall a <- Parsed(raw)[..n] :: Fits(a)) && Entries(Parsed(raw)[..n]) == raw[12..12 + ENTRY_SIZE * n]
  {
    hide Number, Bytes, Entry, ReadEntry, Fits;
    if n > 0 {
      EntriesOfParsed(raw, n - 1);
      var offset := 12 + ENTRY_SIZE * (n - 1);
      EntryOfRead(raw, offset);
      assert Parsed(raw)[..n][..n - 1] == Parsed(raw)[..n - 1];
      assert Parsed(raw)[..n] == Parsed(raw)[..n - 1] + [ReadEntry(raw, offset)];
      assert raw[12..12 + ENTRY_SIZE * n] == raw[12..offset] + raw[offset..offset + ENTRY_SIZE];
    }
  }

  lemma ParsedIsImage(raw: seq<Byte>)
    requires Framed(raw) && Canonical(Parsed(raw))
    ensures IsImage(raw, Parsed(raw))
  {
    hide Span, Number, Bytes, Fits, Entries, ReadEntry, Ascending, WithinBudget;
    var n := Number(raw[8..12]);
    EntriesOfParsed(raw, n);
    assert Parsed(raw)[..n] == Parsed(raw);
    hide Parsed;
    CanonicalIsSmall(Parsed(raw));
    BytesOfNumber(raw[8..12]);
    assert raw == raw[..8] + raw[8..12] + raw[12..];
    assert raw[12..12 + ENTRY_SIZE * n] == raw[12..];
  }

  lemma ImageIsParsed(raw: seq<Byte>, allocations: seq<Allocation>)
    requires IsImage(raw, allocations)
    ensures Framed(raw) && Parsed(raw) == allocations
  {
    CanonicalIsSmall(allocations);
    ImageReads(raw, allocations);
  }

  /** The meaning of the bytes is decided by reading the fixed offsets and checking the result. */
  lemma DecodedByReading(raw: seq<Byte>)
    requires raw != []
    ensures Decoded(raw) == if Framed(raw) && Canonical(Parsed(raw)) then Some(Parsed(raw)) else None
  {
    hide Framed, Canonical, IsImage;
    if Framed(raw) && Canonical(Parsed(raw)) {
      ParsedIsImage(raw);
      DecodedImage(raw, Parsed(raw));
    } else {
      forall allocations | IsImage(raw, allocations) ensures false {
        ImageIsParsed(raw, allocations);
        ImageIsCanonical(raw, allocations);
      }
    }
  }

  lemma ImageIsCanonical(raw: seq<Byte>, allocations: seq<Allocation>)
    requires IsImage(raw, allocations)
    ensures Canonical(allocations)
  {
  }

  // ---------- the two directions ----------

  /** decodeAdmissionJournal: accepts the empty string and exactly the images, and gives back what they hold. */
  method Decode(raw: seq<Byte>) returns (result: Option<seq<Allocation>>)
    ensures result == Decoded(raw)
  {
    if |raw| == 0 { return Some([]); }
    DecodedByReading(raw);
    if |raw| < 12 || |raw| > MAXIMUM_BYTES || raw[..8] != MAGIC { return None; }
    var count := Number(raw[8..12]);
    if count > MAXIMUM_ENTRIES || |raw| != 12 + ENTRY_SIZE * count { return None; }
    var allocations, ok := ReadEntries(raw);
    if !ok { return None; }
    var within := CheckBudget(allocations);
    if !within { return None; }
    result := Some(allocations);
  }

  predicate InOrder(allocations: seq<Allocation>) {
    Ascending(allocations) && forall a <- allocations :: a.id != 0 && a.digest != 0
  }

  lemma IdBytesCompare(raw: seq<Byte>, a: nat, b: nat)
    requires a + ENTRY_SIZE <= |raw| && b + ENTRY_SIZE <= |raw|
    ensures Precedes(IdBytes(raw, a), IdBytes(raw, b)) <==> ReadEntry(raw, a).id < ReadEntry(raw, b).id
  {
    hide Precedes, Number;
    PrecedesIsLess(IdBytes(raw, a), IdBytes(raw, b));
  }

  /** The loop of the decoder, stopping at the first entry that is zero or out of order. */
  method ReadEntries(raw: seq<Byte>) returns (allocations: seq<Allocation>, ok: bool)
    requires Framed(raw)
    ensures ok <==> InOrder(Parsed(raw))
    ensures ok ==> allocations == Parsed(raw) && forall a <- allocations :: Fits(a)
  {
    hide Number, Fits, Precedes, ReadEntry, IdBytes;
    var count := Number(raw[8..12]);
    allocations := [];
    var offset := 12;
    for index := 0 to count
      invariant offset == 12 + ENTRY_SIZE * index && allocations == Parsed(raw)[..index]
      invariant forall i :: 0 <= i < index ==> Parsed(raw)[i].id != 0 && Parsed(raw)[i].digest != 0
      invariant forall i :: 0 < i < index ==> Parsed(raw)[i - 1].id < Parsed(raw)[i].id
    {
      assert ENTRY_SIZE * (index + 1) <= ENTRY_SIZE * count;
      var a := ReadEntry(raw, offset);
      assert a == Parsed(raw)[index];
      if index > 0 {
        assert allocations[index - 1] == ReadEntry(raw, offset - ENTRY_SIZE);
        IdBytesCompare(raw, offset - ENTRY_SIZE, offset);
      }
      if a.id == 0 || a.digest == 0 || (index > 0 && !Precedes(IdBytes(raw, offset - ENTRY_SIZE), IdBytes(raw, offset))) {
        assert a in Parsed(raw);
        return allocations, false;
      }
      allocations := allocations + [a];
      offset := offset + ENTRY_SIZE;
    }
    NeighboursAscend(Parsed(raw));
    EntriesOfParsed(raw, count);
    ok := true;
  }

  lemma NeighboursAscend(allocations: seq<Allocation>)
    requires forall i :: 0 < i < |allocations| ==> allocations[i - 1].id < allocations[i].id
    ensures Ascending(allocations)
  {
    forall i, j | 0 <= i < j < |allocations| ensures allocations[i].id < allocations[j].id {
      AscendsTo(allocations, i, j);
    }
  }

  lemma {:induction false} AscendsTo(allocations: seq<Allocation>, i: nat, j: nat)
    requires forall n :: 0 < n < |allocations| ==> allocations[n - 1].id < allocations[n].id
    requires i < j < |allocations|
    ensures allocations[i].id < allocations[j].id
  {
    if i + 1 < j { AscendsTo(allocations, i, j - 1); }
  }

  /** encodeAdmissionJournal: refuses what is over budget or repeats an identifier, and writes the rest in order. */
  method Encode(allocations: seq<Allocation>) returns (result: Option<seq<Byte>>)
    requires forall a <- allocations :: Fits(a)
    ensures result.Some? <==> WithinBudget(allocations) && DistinctIds(allocations)
    ensures result.Some? ==> |SortById(allocations)| < Span(4) && (forall a <- SortById(allocations) :: Fits(a))
    ensures result.Some? ==> result.value == Image(SortById(allocations))
  {
    hide Fits, Bytes, Entries, SortById;
    var within := CheckBudget(allocations);
    if !within { return None; }
    BudgetBounds(allocations);
    if |allocations| > MAXIMUM_ENTRIES { return None; }
    var ordered := SortById(allocations);
    SortMembers(allocations);
    SortKeeps(allocations);
    SortOrders(allocations);
    SmallCount(|ordered|);
    var entries, ok := WriteEntries(ordered);
    if !ok { return None; }
    var raw := MAGIC + Bytes(|ordered|, 4) + entries;
    if |raw| > MAXIMUM_BYTES { return None; }
    result := Some(raw);
  }

  /** Comparing the 32 bytes of two identifiers compares the identifiers. */
  lemma IdsCompare(a: Allocation, b: Allocation)
    requires Fits(a) && Fits(b)
    ensures a.id < Span(32) && b.id < Span(32)
    ensures Precedes(Bytes(a.id, 32), Bytes(b.id, 32)) <==> a.id < b.id
  {
    hide Span, Bytes, Precedes;
    PrecedesIsLess(Bytes(a.id, 32), Bytes(b.id, 32));
    NumberOfBytes(a.id, 32);
    NumberOfBytes(b.id, 32);
  }

  /** The loop of the encoder, stopping at the first entry that is not after its neighbour. */
  method WriteEntries(ordered: seq<Allocation>) returns (raw: seq<Byte>, ok: bool)
    requires forall a <- ordered :: Fits(a)
    ensures ok <==> Ascending(ordered)
    ensures ok ==> raw == Entries(ordered)
  {
    hide Fits, Entry, Precedes, Bytes, Span;
    raw := [];
    for index := 0 to |ordered|
      invariant forall i :: 0 < i < index ==> ordered[i - 1].id < ordered[i].id
      invariant raw == Entries(ordered[..index])
    {
      if index > 0 {
        IdsCompare(ordered[index - 1], ordered[index]);
        if !Precedes(Bytes(ordered[index - 1].id, 32), Bytes(ordered[index].id, 32)) { return raw, false; }
      }
      assert ordered[..index + 1][..index] == ordered[..index];
      raw := raw + Entry(ordered[index]);
    }
    NeighboursAscend(ordered);
    assert ordered[..|ordered|] == ordered;
    ok := true;
  }

  /**
   Decoding an encoding gives the allocations in identifier order exactly when none of them has a zero identifier or
   digest, and nothing otherwise: the encoder writes those and the decoder refuses them.
   */
  lemma EncodingDecodesExactly(allocations: seq<Allocation>)
    requires (forall a <- allocations :: Fits(a)) && WithinBudget(allocations) && DistinctIds(allocations)
    ensures |SortById(allocations)| < Span(4) && forall a <- SortById(allocations) :: Fits(a)
    ensures Decoded(Image(SortById(allocations)))
            == if forall a <- allocations :: a.id != 0 && a.digest != 0 then Some(SortById(allocations)) else None
  {
    SortedIsCanonical(allocations);
    var ordered := SortById(allocations);
    var raw := Image(ordered);
    assert Spells(raw, ordered);
    hide *;
    if Canonical(ordered) {
      SpelledIsImage(raw, ordered);
      DecodedImage(raw, ordered);
    } else {
      NotDecoded(raw, ordered);
    }
  }

  lemma SpelledIsImage(raw: seq<Byte>, allocations: seq<Allocation>)
    requires Spells(raw, allocations) && Canonical(allocations)
    ensures IsImage(raw, allocations)
  {
  }

  lemma SortedIsCanonical(allocations: seq<Allocation>)
    requires (forall a <- allocations :: Fits(a)) && WithinBudget(allocations) && DistinctIds(allocations)
    ensures |SortById(allocations)| < Span(4) && forall a <- SortById(allocations) :: Fits(a)
    ensures Canonical(SortById(allocations)) <==> forall a <- allocations :: a.id != 0 && a.digest != 0
  {
    hide Fits, Span, SortById;
    SortMembers(allocations);
    SortKeeps(allocations);
    SortOrders(allocations);
    BudgetBounds(allocations);
    SmallCount(|SortById(allocations)|);
  }

  lemma NotDecoded(raw: seq<Byte>, allocations: seq<Allocation>)
    requires Spells(raw, allocations) && !Canonical(allocations)
    ensures Decoded(raw) == None
  {
    hide Canonical;
    forall other | IsImage(raw, other) ensures false { ImageInjective(raw, other, allocations); }
  }

  /** One allocation with a zero identifier is enough: the encoder takes it and the decoder refuses the bytes. */
  method ZeroIdentifier() returns (raw: Option<seq<Byte>>, back: Option<seq<Allocation>>)
    ensures raw.Some? && back.None?
  {
    var a := Allocation(1, USER, 1, 0, 1);
    var list := [a];
    GrantedAppends([], a, USER);
    GrantedAppends([], a, PUBLISHER);
    assert [] + list == list;
    SpanGrows(8);
    SpanGrows(4);
    SpanGrows(32);
    hide Span, Image, SortById, Decoded;
    assert DistinctIds(list);
    EncodingDecodesExactly(list);
    raw := Encode(list);
    back := Decode(raw.value);
  }

  /** Re-encoding anything the decoder accepts from a non-empty string gives the string back. */
  lemma DecodingEncodes(raw: seq<Byte>)
    requires raw != [] && Decoded(raw).Some?
    ensures var held := Decoded(raw).value;
            WithinBudget(held) && DistinctIds(held) && SortById(held) == held && IsImage(raw, held)
  {
    var held := Decoded(raw).value;
    assert IsImage(raw, held);
    SortedIsFixed(held);
  }

  lemma {:induction false} SortedIsFixed(allocations: seq<Allocation>)
    requires Ascending(allocations)
    ensures SortById(allocations) == allocations
  {
    if allocations != [] {
      SortedIsFixed(allocations[1..]);
      assert allocations == [allocations[0]] + allocations[1..];
    }
  }
}
