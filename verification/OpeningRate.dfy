/**
 The rate limit on opening introductions: a replay map and a buffer of the last four opening times, shifted in place.
 Times are whole nanoseconds.
 */
module OpeningRate {
  import opened Common

  const SECOND := 1_000_000_000
  const SLOTS := 4
  const MAXIMUM_REPLAYS := 2640

  /** The zero time, which the buffer starts with. */
  const ZERO := 0

  /** Opening times never go back, and the fourth before any of them lies a full second earlier. */
  predicate Spaced(times: seq<int>) {
    && (forall i, j :: 0 <= i < j < |times| ==> times[i] <= times[j])
    && (forall i :: 0 <= i < |times| - SLOTS ==> times[i] + SECOND <= times[i + SLOTS])
  }

  /** The openings in the second that starts at `from`. */
  function Within(times: seq<int>, from: int): nat {
    if times == [] then 0
    else
      var last := |times| - 1;
      Within(times[..last], from) + if from <= times[last] < from + SECOND then 1 else 0
  }

  lemma {:induction false} NoneBefore(times: seq<int>, from: int)
    requires forall i :: 0 <= i < |times| ==> times[i] < from
    ensures Within(times, from) == 0
  {
    if times != [] { NoneBefore(times[..|times| - 1], from); }
  }

  lemma {:induction false} OneEach(times: seq<int>, from: int, n: nat)
    requires n <= |times|
    ensures Within(times, from) <= Within(times[..n], from) + |times| - n
  {
    if n < |times| {
      OneEach(times[..|times| - 1], from, n);
      assert times[..|times| - 1][..n] == times[..n];
    } else {
      assert times[..n] == times;
    }
  }

  /** Spaced times put at most four openings into any second, wherever it starts. */
  lemma {:induction false} AtMostFour(times: seq<int>, from: int)
    requires Spaced(times)
    ensures Within(times, from) <= SLOTS
  {
    var last := |times| - 1;
    if |times| > SLOTS {
      if from <= times[last] < from + SECOND {
        var early := times[..last - SLOTS + 1];
        assert times[last - SLOTS] + SECOND <= times[last];
        NoneBefore(early, from);
        OneEach(times, from, last - SLOTS + 1);
      } else {
        AtMostFour(times[..last], from);
      }
    } else {
      OneEach(times, from, 0);
    }
  }

  function Purged(replays: map<nat, int>, now: int): map<nat, int> {
    map n <- replays | now < replays[n] :: replays[n]
  }

  /** What a history leaves: the nonces kept, and all opening times after the four zero times the buffer began with. */
  datatype Memory = Memory(replays: map<nat, int>, times: seq<int>)

  const BLANK := Memory(map[], [ZERO, ZERO, ZERO, ZERO])

  /** The nonce is new, there is room for it, the clock did not go back, and the fourth opening before is a second old. */
  predicate Grants(m: Memory, nonce: nat, now: int) {
    && nonce !in Purged(m.replays, now) && |Purged(m.replays, now)| < MAXIMUM_REPLAYS
    && SLOTS <= |m.times| && now >= m.times[|m.times| - 1] && now >= m.times[|m.times| - SLOTS] + SECOND
  }

  /** The buffer holds the last four times, and all real ones are spaced. */
  predicate Tracks(slots: seq<int>, times: seq<int>) {
    && |slots| == SLOTS <= |times| && slots == times[|times| - SLOTS..]
    && Spaced(times[SLOTS..])
    && (forall i :: 0 <= i < SLOTS ==> times[i] == ZERO)
    && (forall i :: SLOTS <= i < |times| ==> times[i] >= ZERO + SECOND)
  }

  lemma TracksEnds(slots: seq<int>, times: seq<int>)
    requires Tracks(slots, times)
    ensures |slots| == SLOTS <= |times|
    ensures slots[0] == times[|times| - SLOTS] && slots[SLOTS - 1] == times[|times| - 1]
  {
    hide Spaced;
  }

  /** A granted time takes the place of the oldest one. */
  lemma TracksNext(slots: seq<int>, times: seq<int>, now: int)
    requires Tracks(slots, times) && |slots| == SLOTS && now >= slots[SLOTS - 1] && now >= slots[0] + SECOND
    ensures Tracks(slots[1..] + [now], times + [now])
  {
    TracksEnds(slots, times);
    Extends(times, now);
    hide Spaced;
  }

  lemma TracksSpaced(slots: seq<int>, times: seq<int>)
    requires Tracks(slots, BLANK.times + times)
    ensures Spaced(times)
  {
    assert (BLANK.times + times)[SLOTS..] == times;
  }

  lemma TracksBlank()
    ensures Tracks(BLANK.times, BLANK.times)
  {
  }

  class Limiter {
    const openings: array<int>
    var replays: map<nat, int>

    /** All opening times so far, after the four zero times the buffer began with. */
    ghost var times: seq<int>

    ghost predicate Valid()
      reads this, openings
    {
      openings.Length == SLOTS && Tracks(openings[..], times)
    }

    constructor ()
      ensures Valid() && fresh(openings) && replays == map[] && times == BLANK.times
    {
      openings := new int[SLOTS](_ => ZERO);
      replays, times := map[], BLANK.times;
      new;
      assert openings[..] == BLANK.times;
      TracksBlank();
    }

    /** Expired nonces are forgotten. */
    method Purge(now: int)
      modifies `replays
      ensures replays == Purged(old(replays), now)
    {
      var rest := replays.Keys;
      while rest != {}
        invariant rest <= old(replays).Keys
        invariant replays == map n <- old(replays) | n in rest || now < old(replays)[n] :: old(replays)[n]
        decreases |rest|
      {
        var retained :| retained in rest;
        if now >= replays[retained] { replays := replays - {retained}; }
        rest := rest - {retained};
      }
    }

    /** The buffer moves down one slot and takes the new time. */
    method Shift(now: int)
      requires openings.Length == SLOTS
      modifies openings
      ensures openings[..] == old(openings[..])[1..] + [now]
    {
      openings[0], openings[1], openings[2] := openings[1], openings[2], openings[3];
      openings[SLOTS - 1] := now;
    }

    /**
     reserveTextIntroductionOpeningLocked. An opening is granted exactly if its nonce is new, there is room for it, the
     clock did not go back, and the fourth opening before it is a second old.
     */
    method Reserve(nonce: nat, now: int) returns (ok: bool)
      requires Valid()
      modifies this, openings
      ensures Valid() && replays == Purged(old(replays), now)
      ensures ok <==> Grants(Memory(old(replays), old(times)), nonce, now)
      ensures times == if ok then old(times) + [now] else old(times)
    {
      hide Purged, Tracks;
      Purge(now);
      TracksEnds(openings[..], times);
      if nonce in replays || |replays| >= MAXIMUM_REPLAYS { return false; }
      if now < openings[SLOTS - 1] || now < openings[0] + SECOND { return false; }
      TracksNext(openings[..], times, now);
      Shift(now);
      times := times + [now];
      ok := true;
    }

    /** The nonce of an accepted introduction is kept until its registration is long over. */
    method Keep(nonce: nat, expiry: int)
      requires Valid()
      modifies `replays
      ensures Valid() && replays == old(replays)[nonce := expiry]
    {
      replays := replays[nonce := expiry];
    }
  }

  lemma SpacedExtends(times: seq<int>, now: int)
    requires Spaced(times)
    requires times != [] ==> now >= times[|times| - 1]
    requires |times| >= SLOTS ==> now >= times[|times| - SLOTS] + SECOND
    ensures Spaced(times + [now])
  {
    var next := times + [now];
    assert forall i :: 0 <= i < |times| ==> next[i] == times[i];
  }

  lemma Extends(times: seq<int>, now: int)
    requires |times| >= SLOTS && Spaced(times[SLOTS..])
    requires now >= times[|times| - 1] && now >= times[|times| - SLOTS] + SECOND
    ensures Spaced((times + [now])[SLOTS..])
    ensures (times + [now])[|times| + 1 - SLOTS..] == times[|times| - SLOTS..][1..] + [now]
  {
    SpacedExtends(times[SLOTS..], now);
    hide Spaced;
    assert (times + [now])[SLOTS..] == times[SLOTS..] + [now];
  }

  datatype Event = Reserve(nonce: nat, now: int) | Keep(nonce: nat, expiry: int)

  function After(m: Memory, e: Event): Memory {
    match e
    case Reserve(nonce, now) =>
      Memory(Purged(m.replays, now), if Grants(m, nonce, now) then m.times + [now] else m.times)
    case Keep(nonce, expiry) => m.(replays := m.replays[nonce := expiry])
  }

  function Memories(events: seq<Event>): Memory {
    if events == [] then BLANK
    else
      var last := |events| - 1;
      After(Memories(events[..last]), events[last])
  }

  /** The event is a request that the history before it lets through. */
  predicate GrantedAt(events: seq<Event>, i: nat)
    requires i < |events|
  {
    events[i].Reserve? && Grants(Memories(events[..i]), events[i].nonce, events[i].now)
  }

  /** The times of the requests let through. */
  function Openings(events: seq<Event>): seq<int> {
    if events == [] then []
    else
      var last := |events| - 1;
      Openings(events[..last]) + if GrantedAt(events, last) then [events[last].now] else []
  }

  lemma NextMemory(events: seq<Event>, n: nat)
    requires n < |events|
    ensures Memories(events[..n + 1]) == After(Memories(events[..n]), events[n])
  {
    assert events[..n + 1][..n] == events[..n];
    hide After;
  }

  lemma {:induction false} OpeningsAreTimes(events: seq<Event>)
    ensures Memories(events).times == BLANK.times + Openings(events)
  {
    hide Grants;
    if events != [] { OpeningsAreTimes(events[..|events| - 1]); }
  }

  /**
   Any history, with any clock: each request is let through exactly if what came before allows it, the openings never
   go back in time and no second holds more than four of them.
   */
  method Run(events: seq<Event>) returns (verdicts: seq<bool>)
    ensures |verdicts| == |events| && forall i :: 0 <= i < |events| ==> verdicts[i] == GrantedAt(events, i)
    ensures forall i, j :: 0 <= i < j < |Openings(events)| ==> Openings(events)[i] <= Openings(events)[j]
    ensures forall from: int :: Within(Openings(events), from) <= SLOTS
  {
    hide Purged, Grants, Memories, Openings, Within, Tracks;
    var limiter := new Limiter();
    verdicts := [];
    Blank();
    for n := 0 to |events|
      invariant fresh(limiter) && fresh(limiter.openings) && limiter.Valid() && |verdicts| == n
      invariant Memory(limiter.replays, limiter.times) == Memories(events[..n])
      invariant forall i :: 0 <= i < n ==> verdicts[i] == GrantedAt(events, i)
    {
      NextMemory(events, n);
      var ok := Perform(limiter, events[n]);
      verdicts := verdicts + [ok];
    }
    assert events[..|events|] == events;
    OpeningsAreTimes(events);
    TracksSpaced(limiter.openings[..], Openings(events));
    forall from: int ensures Within(Openings(events), from) <= SLOTS { AtMostFour(Openings(events), from); }
  }

  lemma Blank()
    ensures Memories([]) == BLANK
  {
  }

  method Perform(limiter: Limiter, e: Event) returns (ok: bool)
    requires limiter.Valid()
    modifies limiter, limiter.openings
    ensures limiter.Valid()
    ensures Memory(limiter.replays, limiter.times) == After(old(Memory(limiter.replays, limiter.times)), e)
    ensures ok <==> e.Reserve? && Grants(old(Memory(limiter.replays, limiter.times)), e.nonce, e.now)
  {
    hide Purged, Grants, Tracks;
    match e
    case Reserve(nonce, now) =>
      ok := limiter.Reserve(nonce, now);
    case Keep(nonce, expiry) =>
      limiter.Keep(nonce, expiry);
      ok := false;
  }

  /** The clock has not reached the expiry, and the nonce is not kept for less, between two places of a history. */
  predicate Unexpired(events: seq<Event>, i: nat, n: nat, nonce: nat, expiry: int)
    requires n <= |events|
  {
    forall k :: i < k < n ==>
      && (events[k].Reserve? ==> events[k].now < expiry)
      && (events[k].Keep? && events[k].nonce == nonce ==> events[k].expiry >= expiry)
  }

  lemma {:induction false} Remembered(events: seq<Event>, i: nat, n: nat, nonce: nat, expiry: int)
    requires i < n <= |events| && events[i] == Keep(nonce, expiry) && Unexpired(events, i, n, nonce, expiry)
    ensures nonce in Memories(events[..n]).replays && Memories(events[..n]).replays[nonce] >= expiry
  {
    hide Memories, Openings, Grants;
    NextMemory(events, n - 1);
    if i < n - 1 { Remembered(events, i, n - 1, nonce, expiry); }
  }

  /** A nonce that was kept is not let through again before its time. */
  lemma KeptIsRefused(events: seq<Event>, i: nat, j: nat)
    requires i < j < |events| && events[i].Keep? && events[j].Reserve? && events[j].nonce == events[i].nonce
    requires events[j].now < events[i].expiry && Unexpired(events, i, j, events[i].nonce, events[i].expiry)
    ensures !GrantedAt(events, j)
  {
    Remembered(events, i, j, events[i].nonce, events[i].expiry);
  }

  // ---------- what is let through ----------

  /** The nonce kept at this place is still kept: it was not kept anew, and no clock since then has reached its expiry. */
  predicate StillKept(events: seq<Event>, i: nat, n: nat)
    requires i < n <= |events| && events[i].Keep?
  {
    forall k :: i < k < n ==>
      && (events[k].Reserve? ==> events[k].now < events[i].expiry)
      && (events[k].Keep? ==> events[k].nonce != events[i].nonce)
  }

  /** The nonces a history still holds at a time. */
  function Live(events: seq<Event>, n: nat, now: int): set<nat>
    requires n <= |events|
  {
    set i | 0 <= i < n && events[i].Keep? && StillKept(events, i, n) && now < events[i].expiry :: events[i].nonce
  }

  /** A nonce is held with an expiry exactly if it was kept with it and still is. */
  lemma {:induction false} HeldExactly(events: seq<Event>, n: nat, nonce: nat, expiry: int)
    requires n <= |events|
    ensures nonce in Memories(events[..n]).replays && Memories(events[..n]).replays[nonce] == expiry
            <==> exists i :: 0 <= i < n && events[i] == Keep(nonce, expiry) && StillKept(events, i, n)
  {
    if n > 0 {
      NextMemory(events, n - 1);
      HeldExactly(events, n - 1, nonce, expiry);
      HeldStep(events, n - 1, nonce, expiry);
    }
  }

  lemma HeldStep(events: seq<Event>, n: nat, nonce: nat, expiry: int)
    requires n < |events|
    requires Memories(events[..n + 1]) == After(Memories(events[..n]), events[n])
    requires nonce in Memories(events[..n]).replays && Memories(events[..n]).replays[nonce] == expiry
             <==> exists i :: 0 <= i < n && events[i] == Keep(nonce, expiry) && StillKept(events, i, n)
    ensures nonce in Memories(events[..n + 1]).replays && Memories(events[..n + 1]).replays[nonce] == expiry
            <==> exists i :: 0 <= i < n + 1 && events[i] == Keep(nonce, expiry) && StillKept(events, i, n + 1)
  {
    hide Memories, Grants;
    var last := events[n];
    if last == Keep(nonce, expiry) {
      assert StillKept(events, n, n + 1);
    } else if exists i :: 0 <= i < n + 1 && events[i] == Keep(nonce, expiry) && StillKept(events, i, n + 1) {
      var i :| 0 <= i < n + 1 && events[i] == Keep(nonce, expiry) && StillKept(events, i, n + 1);
      assert StillKept(events, i, n);
    } else if nonce in Memories(events[..n]).replays && Memories(events[..n]).replays[nonce] == expiry {
      var i :| 0 <= i < n && events[i] == Keep(nonce, expiry) && StillKept(events, i, n);
      assert !StillKept(events, i, n + 1);
    }
  }

  lemma LiveIsPurged(events: seq<Event>, n: nat, now: int)
    requires n <= |events|
    ensures Purged(Memories(events[..n]).replays, now).Keys == Live(events, n, now)
  {
    hide Memories, StillKept;
    var replays := Memories(events[..n]).replays;
    forall nonce ensures nonce in Purged(replays, now) <==> nonce in Live(events, n, now) {
      if nonce in Purged(replays, now) {
        HeldExactly(events, n, nonce, replays[nonce]);
      }
      if nonce in Live(events, n, now) {
        var i :| 0 <= i < n && events[i].Keep? && StillKept(events, i, n) && now < events[i].expiry && events[i].nonce == nonce;
        assert events[i] == Keep(nonce, events[i].expiry);
        HeldExactly(events, n, nonce, events[i].expiry);
      }
    }
  }

  /** Fewer than four openings lie in the second before a time exactly if the fourth last is a second old. */
  lemma WindowIsFourth(times: seq<int>, now: int)
    requires Spaced(times) && (forall i :: 0 <= i < |times| ==> times[i] <= now)
    ensures Within(times, now - SECOND + 1) < SLOTS
            <==> |times| < SLOTS || times[|times| - SLOTS] + SECOND <= now
  {
    var from, n := now - SECOND + 1, |times| - SLOTS;
    if |times| < SLOTS {
      OneEach(times, from, 0);
    } else if times[n] + SECOND <= now {
      NoneBefore(times[..n + 1], from);
      OneEach(times, from, n + 1);
    } else {
      AllWithin(times[n..], from);
      Parts(times, from, n);
    }
  }

  lemma {:induction false} AllWithin(times: seq<int>, from: int)
    requires forall i :: 0 <= i < |times| ==> from <= times[i] < from + SECOND
    ensures Within(times, from) == |times|
  {
    if times != [] { AllWithin(times[..|times| - 1], from); }
  }

  lemma {:induction false} Parts(times: seq<int>, from: int, n: nat)
    requires n <= |times|
    ensures Within(times, from) == Within(times[..n], from) + Within(times[n..], from)
  {
    if n == |times| {
      assert times[..n] == times;
    } else {
      var last := |times| - 1;
      Parts(times[..last], from, n);
      assert times[..last][..n] == times[..n] && times[n..][..last - n] == times[..last][n..];
    }
  }

  lemma {:induction false} OpeningsTrack(events: seq<Event>)
    ensures Memories(events).times == BLANK.times + Openings(events)
    ensures Tracks(Memories(events).times[|Openings(events)|..], Memories(events).times)
  {
    OpeningsAreTimes(events);
    if events == [] {
      TracksBlank();
    } else {
      var last := |events| - 1;
      var times := Memories(events[..last]).times;
      OpeningsTrack(events[..last]);
      if GrantedAt(events, last) {
        hide Memories, Tracks;
        TracksEnds(times[|times| - SLOTS..], times);
        TracksNext(times[|times| - SLOTS..], times, events[last].now);
        assert (times + [events[last].now])[|times| + 1 - SLOTS..] == times[|times| - SLOTS..][1..] + [events[last].now];
      }
    }
  }

  lemma TracksOpenings(before: seq<int>)
    requires Tracks((BLANK.times + before)[|before|..], BLANK.times + before)
    ensures Spaced(before) && forall i :: 0 <= i < |before| ==> SECOND <= before[i] <= before[|before| - 1]
  {
    TracksSpaced((BLANK.times + before)[|before|..], before);
    forall i | 0 <= i < |before| ensures SECOND <= before[i] <= before[|before| - 1] {
      assert before[i] == (BLANK.times + before)[SLOTS + i];
    }
  }

  /** The clock is set and not behind any opening, and fewer than four openings lie in the second before it. */
  predicate InTime(before: seq<int>, now: int) {
    && now >= 1_000_000_000 && (forall i :: 0 <= i < |before| ==> before[i] <= now)
    && Within(before, now - 1_000_000_000 + 1) < 4
  }

  /** The two tests on the buffer, against the openings themselves. */
  lemma RateExactly(before: seq<int>, now: int)
    requires Tracks((BLANK.times + before)[|before|..], BLANK.times + before)
    ensures now >= (BLANK.times + before)[|before| + SLOTS - 1] && now >= (BLANK.times + before)[|before|] + SECOND
            <==> InTime(before, now)
  {
    TracksOpenings(before);
    hide Spaced, Tracks, Within;
    if forall i :: 0 <= i < |before| ==> before[i] <= now { WindowIsFourth(before, now); }
    var times := BLANK.times + before;
    assert if before != [] then times[|before| + SLOTS - 1] == before[|before| - 1] else times[SLOTS - 1] == ZERO;
    assert times[|before|] == if |before| >= SLOTS then before[|before| - SLOTS] else ZERO;
  }

  /**
   In any history a request is let through exactly if its nonce is not held any more, fewer than 2640 are, and it comes
   in time.
   */
  lemma GrantedExactly(events: seq<Event>, j: nat)
    requires j < |events| && events[j].Reserve?
    ensures GrantedAt(events, j)
            <==> && events[j].nonce !in Live(events, j, events[j].now) && |Live(events, j, events[j].now)| < 2640
                 && InTime(Openings(events[..j]), events[j].now)
  {
    hide Memories, Openings, Live, Purged, Tracks, InTime;
    var m, now, before := Memories(events[..j]), events[j].now, Openings(events[..j]);
    LiveIsPurged(events, j, now);
    SizeOfKeys(Purged(m.replays, now));
    OpeningsTrack(events[..j]);
    RateExactly(before, now);
    assert |m.times| == |before| + SLOTS;
  }

  lemma SizeOfKeys(m: map<nat, int>)
    ensures |m| == |m.Keys|
  {
  }

  /**
   Four openings in one second and no fifth; the nonce of the first is kept until the second is over, and is then let
   through again.
   */
  method FourRun() returns (verdicts: seq<bool>)
    ensures verdicts == [true, true, true, true, false, true]
  {
    hide Tracks, Purged;
    var limiter := new Limiter();
    PurgedOne(SECOND, 2 * SECOND);
    var first := limiter.Reserve(1, SECOND);
    limiter.Keep(1, 2 * SECOND);
    assert limiter.replays == map[1 := 2 * SECOND] && limiter.times == [0, 0, 0, 0, SECOND];
    var second := limiter.Reserve(2, SECOND);
    PurgedOne(SECOND + 1, 2 * SECOND);
    var third := limiter.Reserve(3, SECOND + 1);
    PurgedOne(SECOND + 2, 2 * SECOND);
    var fourth := limiter.Reserve(4, SECOND + 2);
    assert limiter.times == [0, 0, 0, 0, SECOND, SECOND, SECOND + 1, SECOND + 2];
    PurgedOne(SECOND + 3, 2 * SECOND);
    var fifth := limiter.Reserve(5, SECOND + 3);
    PurgedOne(2 * SECOND, 2 * SECOND);
    var again := limiter.Reserve(1, 2 * SECOND);
    verdicts := [first, second, third, fourth, fifth, again];
  }

  lemma PurgedOne(now: int, expiry: int)
    ensures Purged(map[], now) == map[]
    ensures Purged(map[1 := expiry], now) == if now < expiry then map[1 := expiry] else map[]
  {
  }
}
