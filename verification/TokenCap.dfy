/** The daily token cap of an organisation: one atomic reserve before a model call and one settle
    after it, with many calls in flight and a counter store whose replies can be lost. */
module TokenCap {
  import opened Options

  /** The counter's key: one per organisation and UTC day. */
  datatype Key = Key(org: string, day: nat)

  datatype Reservation = Reservation(key: Key, reserved: nat)

  /** What happens to a command sent to the store: it is carried out and answered, it is carried
      out but the answer is lost, or it never gets there. */
  datatype Link = Up | ReplyLost | Down

  datatype Reserved = Unmetered | Refused | Granted(reservation: Reservation)

  function NonNegative(n: int): nat {
    if n < 0 then 0 else n
  }

  type Counters = map<Key, int>

  function Spent(counters: Counters, key: Key): int {
    if key in counters then counters[key] else 0
  }

  /** The store, with the two client operations. */
  class Meter {
    var counters: Counters

    constructor ()
      ensures counters == map[]
    {
      counters := map[];
    }

    /** The script: refuse when the cap is spent, otherwise add, in one step. */
    method Eval(key: Key, cap: int, tokens: nat) returns (allowed: int)
      modifies this
      ensures allowed == -1 || allowed == 1
      ensures allowed == -1 <==> Spent(old(counters), key) >= cap
      ensures counters == if allowed == -1 then old(counters)
                          else old(counters)[key := Spent(old(counters), key) + tokens]
    {
      var spent := if key in counters then counters[key] else 0;
      if spent >= cap {
        return -1;
      }
      counters := counters[key := spent + tokens];
      return 1;
    }

    method ReserveTokens(org: string, estimate: int, cap: int, today: nat, link: Link) returns (r: Reserved)
      modifies this
      ensures (r, counters) == Reserve(old(counters), org, estimate, cap, today, link)
    {
      if org == "" || cap <= 0 {
        return Unmetered;
      }
      var key := Key(org, today);
      var reserved := if estimate < 0 then 0 else estimate;
      if link == Down {
        return Unmetered;
      }
      var allowed := Eval(key, cap, reserved);
      if link == ReplyLost {
        return Unmetered;
      }
      if allowed < 0 {
        return Refused;
      }
      return Granted(Reservation(key, reserved));
    }

    method SettleTokens(reservation: Option<Reservation>, actual: int, link: Link)
      modifies this
      ensures counters == if reservation.None? then old(counters)
                          else Settle(old(counters), reservation.value, actual, link)
    {
      if reservation == None {
        return;
      }
      var Reservation(key, reserved) := reservation.value;
      var delta := (if actual < 0 then 0 else actual) - reserved;
      if delta == 0 {
        return;
      }
      if link != Down {
        counters := counters[key := (if key in counters then counters[key] else 0) + delta];
      }
    }

    method TokensLeft(org: string, cap: int, today: nat, link: Link) returns (left: Option<nat>)
      ensures left == Left(counters, org, cap, today, link)
    {
      if org == "" || cap <= 0 {
        return None;
      }
      if link != Up {
        return None;
      }
      var spent := Spent(counters, Key(org, today));
      return Some(if cap - spent < 0 then 0 else cap - spent);
    }
  }

  function Reserve(c: Counters, org: string, estimate: int, cap: int, today: nat, link: Link): (Reserved, Counters) {
    var key := Key(org, today);
    if org == "" || cap <= 0 || link == Down then (Unmetered, c)
    else if Spent(c, key) >= cap then (if link == Up then Refused else Unmetered, c)
    else (if link == Up then Granted(Reservation(key, NonNegative(estimate))) else Unmetered,
          c[key := Spent(c, key) + NonNegative(estimate)])
  }

  function Settle(c: Counters, r: Reservation, actual: int, link: Link): Counters {
    var delta := NonNegative(actual) - r.reserved;
    if delta == 0 || link == Down then c else c[r.key := Spent(c, r.key) + delta]
  }

  function Left(c: Counters, org: string, cap: int, today: nat, link: Link): Option<nat> {
    if org == "" || cap <= 0 || link != Up then None
    else Some(NonNegative(cap - Spent(c, Key(org, today))))
  }

  /** Nothing is left exactly when a reserve of any size would be refused. */
  lemma {:induction false} NothingLeftIffRefused(c: Counters, org: string, estimate: int, cap: int, today: nat)
    ensures Left(c, org, cap, today, Up) == Some(0) <==> Reserve(c, org, estimate, cap, today, Up).0 == Refused
    ensures Left(c, org, cap, today, Up) == None <==> Reserve(c, org, estimate, cap, today, Up).0 == Unmetered
  {
  }

  /** When a call is refused, let through with a reservation, or let through without one, and when the counter
      moves: also when the store carried the command out and its reply was lost. */
  lemma {:induction false} ReserveMeans(c: Counters, org: string, estimate: int, cap: int, today: nat, link: Link)
    ensures var (r, after) := Reserve(c, org, estimate, cap, today, link);
            var key := Key(org, today);
            var spent := if key in c then c[key] else 0;
            var metered := org != "" && cap > 0;
            && (r == Refused <==> metered && link == Up && spent >= cap)
            && (r.Granted? <==> metered && link == Up && spent < cap)
            && (r.Granted? ==> r.reservation == Reservation(key, if estimate > 0 then estimate else 0))
            && after == if metered && link != Down && spent < cap
                        then c[key := spent + if estimate > 0 then estimate else 0] else c
  {
  }

  /** What is left is the cap less what is spent, and nothing once that much is spent; it is unknown without an
      organisation or a cap, and when the store does not answer. */
  lemma {:induction false} LeftMeans(c: Counters, org: string, cap: int, today: nat, link: Link)
    ensures var left := Left(c, org, cap, today, link);
            var key := Key(org, today);
            var spent := if key in c then c[key] else 0;
            && (left == None <==> org == "" || cap <= 0 || link == ReplyLost || link == Down)
            && (left.Some? ==> if spent >= cap then left.value == 0 else left.value + spent == cap)
  {
  }

  /** A granted reserve takes its estimate from what is left, down to nothing. */
  lemma {:induction false} ReserveTakesFromLeft(c: Counters, org: string, estimate: nat, cap: int, today: nat)
    requires Reserve(c, org, estimate, cap, today, Up).0.Granted?
    ensures var left, after := Left(c, org, cap, today, Up),
                               Left(Reserve(c, org, estimate, cap, today, Up).1, org, cap, today, Up);
            left.Some? && left.value > 0 && after == Some(if estimate < left.value then left.value - estimate else 0)
  {
  }

  // ---- all interleavings ----

  /** One atomic step of some call: its reserve or its settle, in any order across calls. */
  datatype Step =
    | ReserveStep(call: nat, org: string, estimate: int, today: nat, link: Link)
    | SettleStep(call: nat, actual: int, link: Link)

  /** The store, the reservations held by calls in flight, and the books: per key, the tokens of
      settled calls, and the tokens a lost reply or a failed settle left behind. */
  datatype World = World(counters: Counters, inFlight: map<nat, Reservation>, settled: Counters, leaked: Counters)

  const START := World(map[], map[], map[], map[])

  function Add(c: Counters, key: Key, n: int): Counters {
    c[key := Spent(c, key) + n]
  }

  /** A call that is already in flight, or a settle of a call that holds no reservation, is no step. */
  function Do(w: World, s: Step, cap: int): World {
    match s
    case ReserveStep(call, org, estimate, today, link) =>
      if call in w.inFlight then w
      else
        var (r, counters) := Reserve(w.counters, org, estimate, cap, today, link);
        var key := Key(org, today);
        if r.Granted? then w.(counters := counters, inFlight := w.inFlight[call := r.reservation])
        else w.(counters := counters, leaked := Add(w.leaked, key, Spent(counters, key) - Spent(w.counters, key)))
    case SettleStep(call, actual, link) =>
      if call !in w.inFlight then w
      else
        var r := w.inFlight[call];
        var counters := Settle(w.counters, r, actual, link);
        var rest := w.(counters := counters, inFlight := w.inFlight - {call});
        if link == Down && NonNegative(actual) != r.reserved then rest.(leaked := Add(w.leaked, r.key, r.reserved))
        else rest.(settled := Add(w.settled, r.key, NonNegative(actual)))
  }

  function Run(w: World, steps: seq<Step>, cap: int): World
    decreases |steps|
  {
    if steps == [] then w else Run(Do(w, steps[0], cap), steps[1..], cap)
  }

  /** Tokens reserved on `key` by calls in flight. */
  ghost function Outstanding(inFlight: map<nat, Reservation>, key: Key): nat
    decreases |inFlight|
  {
    if inFlight == map[] then 0
    else
      var call :| call in inFlight;
      Held(inFlight[call], key) + Outstanding(inFlight - {call}, key)
  }

  function Held(r: Reservation, key: Key): nat {
    if r.key == key then r.reserved else 0
  }

  lemma {:induction false} OutstandingRemove(inFlight: map<nat, Reservation>, key: Key, call: nat)
    requires call in inFlight
    ensures Outstanding(inFlight, key) == Held(inFlight[call], key) + Outstanding(inFlight - {call}, key)
    decreases |inFlight|
  {
    var pick :|
      pick in inFlight
      && Outstanding(inFlight, key) == Held(inFlight[pick], key) + Outstanding(inFlight - {pick}, key);
    if pick != call {
      OutstandingRemove(inFlight - {pick}, key, call);
      OutstandingRemove(inFlight - {call}, key, pick);
      assert inFlight - {pick} - {call} == inFlight - {call} - {pick};
    }
  }

  lemma {:induction false} OutstandingAdd(inFlight: map<nat, Reservation>, key: Key, call: nat, r: Reservation)
    requires call !in inFlight
    ensures Outstanding(inFlight[call := r], key) == Held(r, key) + Outstanding(inFlight, key)
  {
    OutstandingRemove(inFlight[call := r], key, call);
    assert inFlight[call := r] - {call} == inFlight;
  }

  /** Every token in a counter is accounted for. */
  ghost predicate Balanced(w: World, key: Key) {
    Spent(w.counters, key) == Spent(w.settled, key) + Outstanding(w.inFlight, key) + Spent(w.leaked, key)
  }

  lemma {:induction false} ReserveKeepsBalance(w: World, s: Step, cap: int, key: Key)
    requires Balanced(w, key) && s.ReserveStep?
    ensures Balanced(Do(w, s, cap), key)
  {
    if s.call !in w.inFlight {
      var r := Reserve(w.counters, s.org, s.estimate, cap, s.today, s.link).0;
      if r.Granted? {
        OutstandingAdd(w.inFlight, key, s.call, r.reservation);
      }
    }
  }

  /** A settle that gets through moves its own counter by actual minus reserved. */
  lemma {:induction false} SettleMoves(counters: Counters, r: Reservation, actual: int, link: Link, key: Key)
    ensures Spent(Settle(counters, r, actual, link), key) - Spent(counters, key)
         == if key == r.key && link != Down then NonNegative(actual) - r.reserved else 0
  {
  }

  lemma {:induction false} SettleKeepsBalance(w: World, s: Step, cap: int, key: Key)
    requires Balanced(w, key) && s.SettleStep?
    ensures Balanced(Do(w, s, cap), key)
  {
    if s.call in w.inFlight {
      SettleMoves(w.counters, w.inFlight[s.call], s.actual, s.link, key);
      OutstandingRemove(w.inFlight, key, s.call);
    }
  }

  /** Conservation over every interleaving: a counter is the settled actuals plus the outstanding
      reservations plus what lost replies and failed settles left behind. */
  lemma {:induction false} TokensAreConserved(w: World, steps: seq<Step>, cap: int, key: Key)
    requires Balanced(w, key)
    ensures Balanced(Run(w, steps, cap), key)
    decreases |steps|
  {
    if steps != [] {
      if steps[0].ReserveStep? {
        ReserveKeepsBalance(w, steps[0], cap, key);
      } else {
        SettleKeepsBalance(w, steps[0], cap, key);
      }
      TokensAreConserved(Do(w, steps[0], cap), steps[1..], cap, key);
    }
  }

  /** A step only touches its own day: a settle, the day its reservation was made on. */
  lemma {:induction false} StepTouchesOwnKey(w: World, s: Step, cap: int, key: Key)
    requires s.ReserveStep? ==> key != Key(s.org, s.today)
    requires s.SettleStep? && s.call in w.inFlight ==> key != w.inFlight[s.call].key
    ensures Spent(Do(w, s, cap).counters, key) == Spent(w.counters, key)
  {
  }

  // ---- how far a counter can pass the cap ----

  function Calls(inFlight: map<nat, Reservation>, key: Key): set<nat> {
    set call | call in inFlight && inFlight[call].key == key
  }

  /** How many calls are in flight on `key`. */
  function Count(inFlight: map<nat, Reservation>, key: Key): nat {
    |Calls(inFlight, key)|
  }

  /** Estimates are at most `e`; a call's actual passes its reservation by at most `d`; and no more
      than `k` calls are in flight on a key at once. */
  ghost predicate Bounded(w: World, s: Step, cap: int, e: nat, k: nat, d: nat) {
    && (s.ReserveStep? ==> s.estimate <= e)
    && (s.SettleStep? && s.call in w.inFlight ==> NonNegative(s.actual) <= w.inFlight[s.call].reserved + d)
    && (forall key :: Count(Do(w, s, cap).inFlight, key) <= k)
  }

  ghost predicate AllBounded(w: World, steps: seq<Step>, cap: int, e: nat, k: nat, d: nat)
    decreases |steps|
  {
    steps != [] ==> Bounded(w, steps[0], cap, e, k, d) && AllBounded(Do(w, steps[0], cap), steps[1..], cap, e, k, d)
  }

  /** What is kept: every call still in flight may yet add its overrun. */
  ghost predicate Within(w: World, cap: int, e: nat, k: nat, d: nat, key: Key) {
    && Count(w.inFlight, key) <= k
    && Spent(w.counters, key) + Count(w.inFlight, key) * d <= cap - 1 + e + k * d
  }

  lemma {:induction false} CountAdd(inFlight: map<nat, Reservation>, call: nat, r: Reservation, key: Key)
    requires call !in inFlight
    ensures Count(inFlight[call := r], key) == Count(inFlight, key) + (if r.key == key then 1 else 0)
  {
    var before := Calls(inFlight, key);
    assert Calls(inFlight[call := r], key) == if r.key == key then before + {call} else before;
  }

  lemma {:induction false} CountRemove(inFlight: map<nat, Reservation>, call: nat, key: Key)
    requires call in inFlight
    ensures Count(inFlight, key) == Count(inFlight - {call}, key) + (if inFlight[call].key == key then 1 else 0)
  {
    CountAdd(inFlight - {call}, call, inFlight[call], key);
    assert (inFlight - {call})[call := inFlight[call]] == inFlight;
  }

  lemma {:induction false} ReserveStaysWithin(w: World, s: Step, cap: int, e: nat, k: nat, d: nat, key: Key)
    requires s.ReserveStep? && Bounded(w, s, cap, e, k, d) && Within(w, cap, e, k, d, key)
    ensures Within(Do(w, s, cap), cap, e, k, d, key)
  {
    var after := Do(w, s, cap);
    if s.call !in w.inFlight {
      var (r, counters) := Reserve(w.counters, s.org, s.estimate, cap, s.today, s.link);
      if r.Granted? {
        CountAdd(w.inFlight, s.call, r.reservation, key);
      }
      var n := Count(after.inFlight, key);
      assert n <= k;
      assert n * d <= k * d by {
        ProductGrows(n, k, d);
      }
    }
  }

  lemma {:induction false} ProductGrows(a: nat, b: nat, d: nat)
    requires a <= b
    ensures a * d <= b * d
  {
  }

  lemma {:induction false} SettleStaysWithin(w: World, s: Step, cap: int, e: nat, k: nat, d: nat, key: Key)
    requires s.SettleStep? && Bounded(w, s, cap, e, k, d) && Within(w, cap, e, k, d, key)
    ensures Within(Do(w, s, cap), cap, e, k, d, key)
  {
    if s.call in w.inFlight {
      CountRemove(w.inFlight, s.call, key);
      var n := Count(w.inFlight - {s.call}, key);
      assert (n + 1) * d == n * d + d;
    }
  }

  /** With at most `k` calls in flight and each overrunning by at most `d`, no counter ever passes
      `cap - 1 + e + k * d`, over every interleaving. */
  lemma {:induction false} OverrunIsBounded(w: World, steps: seq<Step>, cap: int, e: nat, k: nat, d: nat, key: Key)
    requires AllBounded(w, steps, cap, e, k, d) && Within(w, cap, e, k, d, key)
    ensures Within(Run(w, steps, cap), cap, e, k, d, key)
    ensures Spent(Run(w, steps, cap).counters, key) <= cap - 1 + e + k * d
    decreases |steps|
  {
    if steps == [] {
      var n := Count(w.inFlight, key);
      assert n * d >= 0;
    } else {
      if steps[0].ReserveStep? {
        ReserveStaysWithin(w, steps[0], cap, e, k, d, key);
      } else {
        SettleStaysWithin(w, steps[0], cap, e, k, d, key);
      }
      OverrunIsBounded(Do(w, steps[0], cap), steps[1..], cap, e, k, d, key);
    }
  }

  // ---- the same without overruns, however many calls run at once ----

  predicate Frugal(w: World, s: Step, e: nat) {
    && (s.ReserveStep? ==> s.estimate <= e)
    && (s.SettleStep? && s.call in w.inFlight ==> NonNegative(s.actual) <= w.inFlight[s.call].reserved)
  }

  predicate AllFrugal(w: World, steps: seq<Step>, cap: int, e: nat)
    decreases |steps|
  {
    steps != [] ==> Frugal(w, steps[0], e) && AllFrugal(Do(w, steps[0], cap), steps[1..], cap, e)
  }

  /** If no call uses more than it reserved, no counter ever passes `cap - 1 + e`. */
  lemma {:induction false} FrugalIsBounded(w: World, steps: seq<Step>, cap: int, e: nat, key: Key)
    requires AllFrugal(w, steps, cap, e) && Spent(w.counters, key) <= cap - 1 + e
    ensures Spent(Run(w, steps, cap).counters, key) <= cap - 1 + e
    decreases |steps|
  {
    if steps != [] {
      FrugalIsBounded(Do(w, steps[0], cap), steps[1..], cap, e, key);
    }
  }

  /** From an empty store with a positive cap, all three hold of every run. */
  lemma {:induction false} EveryRun(steps: seq<Step>, cap: int, e: nat, k: nat, d: nat, key: Key)
    requires cap > 0
    ensures Balanced(Run(START, steps, cap), key)
    ensures AllFrugal(START, steps, cap, e) ==> Spent(Run(START, steps, cap).counters, key) <= cap - 1 + e
    ensures AllBounded(START, steps, cap, e, k, d) ==>
              Spent(Run(START, steps, cap).counters, key) <= cap - 1 + e + k * d
  {
    TokensAreConserved(START, steps, cap, key);
    if AllFrugal(START, steps, cap, e) {
      FrugalIsBounded(START, steps, cap, e, key);
    }
    if AllBounded(START, steps, cap, e, k, d) {
      assert Calls(map[], key) == {};
      assert k * d >= 0;
      OverrunIsBounded(START, steps, cap, e, k, d, key);
    }
  }

  // ---- the bound is met ----

  /** Calls, one after the other, that use a token each. */
  function Units(org: string, n: nat, unit: nat): seq<Step> {
    if n == 0 then [] else [ReserveStep(0, org, unit, 0, Up), SettleStep(0, 1, Up)] + Units(org, n - 1, unit)
  }

  /** `n + 1` calls that are all let in before any settles, the last one with the largest estimate, and
      that all overrun by `d`. */
  function Overlapping(org: string, n: nat, e: nat, d: nat): seq<Step> {
    if n == 0 then [ReserveStep(0, org, e, 0, Up), SettleStep(0, e + d, Up)]
    else [ReserveStep(n, org, 0, 0, Up)] + Overlapping(org, n - 1, e, d) + [SettleStep(n, d, Up)]
  }

  lemma {:induction false} RunSplits(w: World, a: seq<Step>, b: seq<Step>, cap: int, e: nat, k: nat, d: nat)
    ensures Run(w, a + b, cap) == Run(Run(w, a, cap), b, cap)
    ensures AllBounded(w, a + b, cap, e, k, d)
       <==> AllBounded(w, a, cap, e, k, d) && AllBounded(Run(w, a, cap), b, cap, e, k, d)
    decreases |a|
  {
    if a == [] {
      assert a + b == b;
    } else {
      assert (a + b)[1..] == a[1..] + b;
      RunSplits(Do(w, a[0], cap), a[1..], b, cap, e, k, d);
    }
  }

  lemma {:induction false} RunOfOne(w: World, s: Step, cap: int, e: nat, k: nat, d: nat)
    ensures Run(w, [s], cap) == Do(w, s, cap)
    ensures AllBounded(w, [s], cap, e, k, d) <==> Bounded(w, s, cap, e, k, d)
  {
    assert [s][1..] == [];
    assert AllBounded(Do(w, s, cap), [], cap, e, k, d);
  }

  /** There is room on every key for `n` more calls. */
  ghost predicate Room(w: World, n: nat, k: nat) {
    forall key :: Count(w.inFlight, key) + n <= k
  }

  /** None of the calls up to `n` is in flight. */
  predicate NotInFlight(w: World, n: nat) {
    forall call :: 0 <= call <= n ==> call !in w.inFlight
  }

  /** A call that is let in. */
  lemma {:induction false} ReserveOne(w: World, call: nat, org: string, estimate: nat, n: nat, cap: int, e: nat, k: nat,
      d: nat)
    requires org != "" && Spent(w.counters, Key(org, 0)) < cap && 0 < cap && estimate <= e
    requires call !in w.inFlight && Room(w, n + 1, k)
    ensures var s := ReserveStep(call, org, estimate, 0, Up);
            var after := Do(w, s, cap);
            && Bounded(w, s, cap, e, k, d) && Room(after, n, k)
            && after.inFlight == w.inFlight[call := Reservation(Key(org, 0), estimate)]
            && Spent(after.counters, Key(org, 0)) == Spent(w.counters, Key(org, 0)) + estimate
  {
    var r := Reservation(Key(org, 0), estimate);
    var after := Do(w, ReserveStep(call, org, estimate, 0, Up), cap);
    assert after.inFlight == w.inFlight[call := r];
    forall key ensures Count(after.inFlight, key) + n <= k {
      CountAdd(w.inFlight, call, r, key);
    }
  }

  /** Its settle. */
  lemma {:induction false} SettleOne(w: World, call: nat, actual: nat, n: nat, cap: int, e: nat, k: nat, d: nat)
    requires call in w.inFlight && actual <= w.inFlight[call].reserved + d && Room(w, n, k)
    ensures var s := SettleStep(call, actual, Up);
            var r, after := w.inFlight[call], Do(w, s, cap);
            && Bounded(w, s, cap, e, k, d) && after.inFlight == w.inFlight - {call} && Room(after, n, k)
            && Spent(after.counters, r.key) == Spent(w.counters, r.key) + actual - r.reserved
  {
    var after := Do(w, SettleStep(call, actual, Up), cap);
    SettleMoves(w.counters, w.inFlight[call], actual, Up, w.inFlight[call].key);
    forall key ensures Count(after.inFlight, key) + n <= k {
      CountRemove(w.inFlight, call, key);
    }
  }

  /** A reserve, steps that leave its call in flight, and its settle. */
  lemma {:induction false} Around(w: World, first: Step, inner: seq<Step>, last: Step, cap: int, e: nat, k: nat, d: nat)
    ensures var w1 := Do(w, first, cap);
            var w2 := Run(w1, inner, cap);
            && Run(w, [first] + inner + [last], cap) == Do(w2, last, cap)
            && (AllBounded(w, [first] + inner + [last], cap, e, k, d)
                <==> Bounded(w, first, cap, e, k, d) && AllBounded(w1, inner, cap, e, k, d)
                     && Bounded(w2, last, cap, e, k, d))
  {
    RunSplits(w, [first] + inner, [last], cap, e, k, d);
    RunSplits(w, [first], inner, cap, e, k, d);
    RunOfOne(w, first, cap, e, k, d);
    RunOfOne(Run(Do(w, first, cap), inner, cap), last, cap, e, k, d);
  }

  lemma {:induction false} CallAround(w: World, call: nat, org: string, estimate: nat, actual: nat, inner: seq<Step>,
      cap: int, e: nat, k: nat, d: nat)
    requires org != "" && 0 < cap && estimate <= e && actual <= estimate + d
    requires Spent(w.counters, Key(org, 0)) < cap && call !in w.inFlight && Room(w, 1, k)
    requires var w1 := Do(w, ReserveStep(call, org, estimate, 0, Up), cap);
             AllBounded(w1, inner, cap, e, k, d) && Run(w1, inner, cap).inFlight == w1.inFlight
    ensures var first, last := ReserveStep(call, org, estimate, 0, Up), SettleStep(call, actual, Up);
            var w2 := Run(Do(w, first, cap), inner, cap);
            var after := Run(w, [first] + inner + [last], cap);
            && AllBounded(w, [first] + inner + [last], cap, e, k, d) && after.inFlight == w.inFlight
            && Spent(after.counters, Key(org, 0)) == Spent(w2.counters, Key(org, 0)) + actual - estimate
  {
    var first, last := ReserveStep(call, org, estimate, 0, Up), SettleStep(call, actual, Up);
    var w1 := Do(w, first, cap);
    ReserveOne(w, call, org, estimate, 0, cap, e, k, d);
    SettleOne(Run(w1, inner, cap), call, actual, 0, cap, e, k, d);
    Around(w, first, inner, last, cap, e, k, d);
    assert w1.inFlight - {call} == w.inFlight;
  }

  lemma {:induction false} UnitsFillUp(w: World, org: string, n: nat, unit: nat, cap: int, e: nat, k: nat, d: nat)
    requires org != "" && 0 < cap && unit <= e && unit <= 1 <= unit + d && 0 !in w.inFlight && Room(w, 1, k)
    requires Spent(w.counters, Key(org, 0)) + n < cap
    ensures AllBounded(w, Units(org, n, unit), cap, e, k, d)
    ensures var after := Run(w, Units(org, n, unit), cap);
            && after.inFlight == w.inFlight
            && Spent(after.counters, Key(org, 0)) == Spent(w.counters, Key(org, 0)) + n
    decreases n
  {
    if n > 0 {
      var first, last := ReserveStep(0, org, unit, 0, Up), SettleStep(0, 1, Up);
      assert [first] + [] + [last] == [first, last];
      ReserveOne(w, 0, org, unit, 0, cap, e, k, d);
      CallAround(w, 0, org, unit, 1, [], cap, e, k, d);
      RunSplits(w, [first, last], Units(org, n - 1, unit), cap, e, k, d);
      UnitsFillUp(Run(w, [first, last], cap), org, n - 1, unit, cap, e, k, d);
    }
  }

  lemma {:induction false} OverlappingOverruns(w: World, org: string, n: nat, cap: int, e: nat, k: nat, d: nat)
    requires org != "" && 0 < cap && Spent(w.counters, Key(org, 0)) < cap
    requires NotInFlight(w, n) && Room(w, n + 1, k)
    ensures AllBounded(w, Overlapping(org, n, e, d), cap, e, k, d)
    ensures var after := Run(w, Overlapping(org, n, e, d), cap);
            && after.inFlight == w.inFlight
            && Spent(after.counters, Key(org, 0)) == Spent(w.counters, Key(org, 0)) + e + (n + 1) * d
    decreases n
  {
    OneMore(n, d);
    if n == 0 {
      ReserveOne(w, 0, org, e, 0, cap, e, k, d);
      CallAround(w, 0, org, e, e + d, [], cap, e, k, d);
      assert [ReserveStep(0, org, e, 0, Up)] + [] + [SettleStep(0, e + d, Up)] == Overlapping(org, 0, e, d);
    } else {
      ReserveOne(w, n, org, 0, n, cap, e, k, d);
      OverlappingOverruns(Do(w, ReserveStep(n, org, 0, 0, Up), cap), org, n - 1, cap, e, k, d);
      CallAround(w, n, org, 0, d, Overlapping(org, n - 1, e, d), cap, e, k, d);
    }
  }

  lemma {:induction false} OneMore(n: nat, d: nat)
    ensures (n + 1) * d == n * d + d && (n == 0 ==> n * d == 0)
  {
  }

  /** The calls that pass the cap as far as can be. */
  function Worst(org: string, cap: nat, e: nat, k: nat, d: nat): seq<Step>
    requires 1 <= cap && 1 <= k
  {
    Units(org, cap - 1, if e == 0 then 0 else 1) + Overlapping(org, k - 1, e, d)
  }

  /** The bound with overruns is met, not only safe: for every number of calls in flight, every cap, and
      every estimate and overrun that are not both zero. */
  lemma {:induction false} BoundIsMet(org: string, cap: nat, e: nat, k: nat, d: nat)
    requires org != "" && 1 <= cap && 1 <= k && 1 <= e + d
    ensures AllBounded(START, Worst(org, cap, e, k, d), cap, e, k, d)
    ensures Spent(Run(START, Worst(org, cap, e, k, d), cap).counters, Key(org, 0)) == cap - 1 + e + k * d
  {
    var unit := if e == 0 then 0 else 1;
    forall key ensures Count(map[], key) == 0 {
      assert Calls(map[], key) == {};
    }
    UnitsFillUp(START, org, cap - 1, unit, cap, e, k, d);
    var full := Run(START, Units(org, cap - 1, unit), cap);
    OverlappingOverruns(full, org, k - 1, cap, e, k, d);
    RunSplits(START, Units(org, cap - 1, unit), Overlapping(org, k - 1, e, d), cap, e, k, d);
  }
}
