/** What a service authority does give out: the next generation, from whichever record stands at the floor. */
module ServiceProgress {
  import opened Common
  import opened AuthorityFloor
  import opened FloorText
  import FloorStore
  import opened ServiceCredential

  /** The request starts once the last generation ended, lasts a day at most and ends within two days from now. */
  predicate InTurn(r: Request, last: nat, now: int) {
    last <= r.notBefore < r.notAfter <= r.notBefore + 86400 && 0 <= now < r.notAfter <= now + 172800
  }

  lemma InTurnIsAdmitted(r: Request, generation: nat, last: nat, now: int)
    requires InTurn(r, last, now) && last < INT64_LIMIT && generation + 2 < UINT64_LIMIT
    ensures Admits(MarksAt(generation, last), r) && Validity(r, now) == (false, true)
    ensures Successor(MarksAt(generation, last), r) == MarksAt(generation + 1, r.notAfter)
    ensures Higher(MarksAt(generation + 1, r.notAfter), MarksAt(generation, last))
    ensures MarksAt(generation, last).revision == generation
  {
    hide Higher;
    SuccessorIsNext(generation, last, r);
  }

  /** With room in the vault and in the floor file, the next generation is given out under any record at the floor. */
  method IssuesNext(vault: Vault, id: Id, r: Request, now: int) returns (credential: Option<Credential>)
    requires vault.Valid() && FloorStore.Readable(vault.store.floors)
    requires !vault.leftover && |vault.records| + vault.foreign < 1024
    requires id in vault.records && vault.records[id] == vault.Stands()
    requires InTurn(r, vault.ends[|vault.ends| - 1], now)
    requires vault.ends[|vault.ends| - 1] < INT64_LIMIT && |vault.ends| + 1 < UINT64_LIMIT
    requires FloorStore.Fits(vault.store.floors, Floor(vault.binding, MarksAt(|vault.ends|, r.notAfter)))
    modifies vault, vault.store
    ensures vault.Valid() && vault.ends == old(vault.ends) + [r.notAfter]
    ensures credential == Some(Credential(|old(vault.ends)|, r))
    ensures Next(id, r) in vault.records && vault.records[Next(id, r)] == vault.Stands()
    ensures vault.foreign == old(vault.foreign) && !vault.leftover && |vault.records| <= |old(vault.records)| + 1
    ensures FloorStore.Readable(vault.store.floors)
    ensures vault.store.floors
            == FloorStore.Advanced(old(vault.store.floors), Floor(vault.binding, MarksAt(|old(vault.ends)|, r.notAfter)))
  {
    hide Sound, Admits, Successor, Validity, Higher, MarksAt, InTurn;
    hide FloorStore.Readable, FloorStore.Orderly, FloorStore.Fits, FloorStore.ValidFloor, FloorStore.Advanced;
    ghost var ends, last := vault.ends, |vault.ends| - 1;
    InTurnIsAdmitted(r, last, ends[last], now);
    InTurnEnds(r, ends[last], now);
    RecordsAgree(vault.records, ends, vault.owners, vault.released, id, r);
    EntryIsValid(vault.binding, |ends|, r.notAfter);
    FloorStore.KnownBindingAdvances(vault.store.floors, Floor(vault.binding, MarksAt(|ends|, r.notAfter)), Done);
    credential := vault.Issue(id, r, now, Filed, Done);
    MarksTell(|vault.ends| - 1, vault.ends[|vault.ends| - 1], |ends|, r.notAfter);
  }

  lemma InTurnEnds(r: Request, last: nat, now: int)
    requires InTurn(r, last, now)
    ensures r.notAfter > 0
  {
  }

  /** The present generation is given out again for the request it was made for, even after it expired. */
  method IssuesAgain(vault: Vault, id: Id, r: Request, now: int, filing: Filing, advance: Write)
    returns (credential: Option<Credential>)
    requires vault.Valid() && FloorStore.Readable(vault.store.floors)
    requires Next(id, r) in vault.records && vault.records[Next(id, r)] == vault.Stands()
    requires 0 <= r.notBefore < r.notAfter <= r.notBefore + 86400 && 0 <= now && r.notAfter <= now + 172800
    modifies vault, vault.store
    ensures vault.Valid() && credential == Some(Credential(|vault.ends| - 1, r))
    ensures vault.records == old(vault.records) && vault.store.floors == old(vault.store.floors)
  {
    hide Sound, Admits, Successor, MarksAt;
    hide FloorStore.Readable, FloorStore.Orderly, FloorStore.Fits, FloorStore.ValidFloor, FloorStore.Advanced;
    RecordsAgree(vault.records, vault.ends, vault.owners, vault.released, id, r);
    RevisionOf(|vault.ends| - 1, vault.ends[|vault.ends| - 1]);
    credential := vault.Issue(id, r, now, filing, advance);
    MarksTell(|vault.ends| - 1, vault.ends[|vault.ends| - 1], |old(vault.ends)| - 1, old(vault.ends)[|old(vault.ends)| - 1]);
  }

  lemma RevisionOf(generation: nat, notAfter: nat)
    ensures MarksAt(generation, notAfter).revision == generation
  {
  }

  lemma InTurnTwice()
    ensures InTurn(Request(1, 1, 1, 5), 0, 2) && InTurn(Request(2, 2, 5, 9), 5, 6)
  {
  }

  /** Two generations in a row, the second under the first. */
  method TwoGenerations() returns (first: Option<Credential>, second: Option<Credential>)
    ensures first == Some(Credential(1, Request(1, 1, 1, 5))) && second == Some(Credential(2, Request(2, 2, 5, 9)))
  {
    hide FloorStore.Readable, FloorStore.Orderly, FloorStore.ValidFloor, FloorStore.Advanced, FloorStore.Fits;
    hide FloorStore.ValidBinding, FloorStore.ZeroBinding, Sound, Weight, MarksAt, Higher, Admits, Validity, Successor, InTurn;
    var a, b := Request(1, 1, 1, 5), Request(2, 2, 5, 9);
    InTurnTwice();
    var vault := SampleVault();
    ghost var binding := vault.binding;
    ghost var f, g, h := Floor(binding, MarksAt(0, 0)), Floor(binding, MarksAt(1, 5)), Floor(binding, MarksAt(2, 9));
    SampleEntryIsSmall(1, 5);
    SampleEntryIsSmall(2, 9);
    FloorStore.ZeroBindingIsValid(Kind.Service);
    EntryIsValid(binding, 1, 5);
    InTurnIsAdmitted(a, 0, 0, 2);
    FloorStore.AloneMoves(f, g);
    FloorStore.SmallFits([f], g);
    FloorStore.AloneAdvances([f], g);
    first := IssuesNext(vault, Root, a, 2);
    assert vault.store.floors == [g];
    FloorStore.SmallFits([g], h);
    second := IssuesNext(vault, Next(Root, a), b, 6);
  }
}
