/**
 * The sliding failure window shared by routing and shedding (proxy/routing.py, `Cooldowns`).
 * The object keeps only recent hits and one deadline per model; the specification below looks at
 * the whole history of recorded failures instead.
 */
module Cooldowns {

  /** One recorded failure. A record without a model name is ignored by the code and by the specification. */
  datatype Failure = Failure(model: string, at: real)

  // --------------------------------------------------------------------
  // Specification over the full history
  // --------------------------------------------------------------------

  /** Times of the failures of `m` after its last trip, oldest first, without any window applied. */
  function SinceTrip(h: seq<Failure>, m: string, threshold: int, window: real): seq<real>
    decreases |h|, 0
  {
    if h == [] then []
    else
      var init, last := h[..|h| - 1], h[|h| - 1];
      if last.model != m || m == "" then SinceTrip(init, m, threshold, window)
      else if Trips(init, last, threshold, window) then []
      else SinceTrip(init, m, threshold, window) + [last.at]
  }

  /** Whether failure `f` after history `h` makes `threshold` failures within the window. */
  predicate Trips(h: seq<Failure>, f: Failure, threshold: int, window: real)
    decreases |h|, 1
  {
    |Within(SinceTrip(h, f.model, threshold, window), f.at, window)| + 1 >= threshold
  }

  /** The times less than `window` before `now`. */
  function Within(times: seq<real>, now: real, window: real): seq<real> {
    if times == [] then []
    else
      var rest, t := Within(times[..|times| - 1], now, window), times[|times| - 1];
      if now - t < window then rest + [t] else rest
  }

  datatype LastTrip = Never | At(at: real)

  function TripOf(h: seq<Failure>, m: string, threshold: int, window: real): LastTrip {
    if h == [] || m == "" then Never
    else
      var init, last := h[..|h| - 1], h[|h| - 1];
      if last.model == m && Trips(init, last, threshold, window) then At(last.at)
      else TripOf(init, m, threshold, window)
  }

  /** Times of all failures of `m`. */
  function TimesOf(h: seq<Failure>, m: string): seq<real> {
    if h == [] then []
    else
      var init, last := TimesOf(h[..|h| - 1], m), h[|h| - 1];
      if last.model == m then init + [last.at] else init
  }

  ghost predicate NotBefore(now: real, h: seq<Failure>) {
    forall i :: 0 <= i < |h| ==> h[i].at <= now
  }

  // --------------------------------------------------------------------
  // Facts about the specification
  // --------------------------------------------------------------------

  /** What counts towards the next trip are exactly the failures recorded after the last one. */
  lemma {:induction false} CountStartsAfterLastTrip(h: seq<Failure>, m: string, threshold: int, window: real)
    returns (i: nat)
    requires m != ""
    ensures i <= |h| && SinceTrip(h, m, threshold, window) == TimesOf(h[i..], m)
    ensures i == 0 <==> TripOf(h, m, threshold, window) == Never
    ensures i > 0 ==> h[i - 1].model == m && Trips(h[..i - 1], h[i - 1], threshold, window)
                      && TripOf(h, m, threshold, window) == At(h[i - 1].at)
  {
    if h == [] {
      i := 0;
    } else {
      var init, last := h[..|h| - 1], h[|h| - 1];
      if last.model == m && Trips(init, last, threshold, window) {
        i := |h|;
      } else {
        i := CountStartsAfterLastTrip(init, m, threshold, window);
        assert h[i..][..|h[i..]| - 1] == init[i..];
        assert i > 0 ==> init[..i - 1] == h[..i - 1];
      }
    }
  }

  /** Filtering by an earlier window first loses nothing that a later window would keep. */
  lemma {:induction false} WithinLater(times: seq<real>, t0: real, t1: real, window: real)
    requires t0 <= t1
    ensures Within(Within(times, t0, window), t1, window) == Within(times, t1, window)
  {
    if times == [] {
    } else {
      var init, t := times[..|times| - 1], times[|times| - 1];
      WithinLater(init, t0, t1, window);
      var kept := Within(init, t0, window);
      if t0 - t < window {
        assert (kept + [t])[..|kept|] == kept;
      }
    }
  }

  /** A trip empties the count: the next one needs `threshold` fresh failures. */
  lemma TripResets(h: seq<Failure>, f: Failure, threshold: int, window: real)
    requires f.model != "" && Trips(h, f, threshold, window)
    ensures SinceTrip(h + [f], f.model, threshold, window) == []
    ensures TripOf(h + [f], f.model, threshold, window) == At(f.at)
  {
    assert (h + [f])[..|h|] == h;
  }

  /** Failures of one model never affect another. */
  lemma OtherModelsUnaffected(h: seq<Failure>, f: Failure, m: string, threshold: int, window: real)
    requires m != f.model || m == ""
    ensures SinceTrip(h + [f], m, threshold, window) == SinceTrip(h, m, threshold, window)
    ensures TripOf(h + [f], m, threshold, window) == TripOf(h, m, threshold, window)
  {
    assert (h + [f])[..|h|] == h;
  }

  /** Two lists that no window from now on can tell apart. */
  ghost predicate SameFromNow(stored: seq<real>, since: seq<real>, h: seq<Failure>, window: real) {
    forall now: real :: NotBefore(now, h) ==> Within(stored, now, window) == Within(since, now, window)
  }

  lemma KeptHitsAgreeAt(stored: seq<real>, since: seq<real>, at: real, window: real, now: real)
    requires at <= now && Within(stored, now, window) == Within(since, now, window)
    ensures Within(Within(stored, at, window) + [at], now, window) == Within(since + [at], now, window)
  {
    var kept := Within(stored, at, window);
    WithinLater(stored, at, now, window);
    assert (kept + [at])[..|kept|] == kept && (since + [at])[..|since|] == since;
  }

  lemma KeptHitsStaySame(stored: seq<real>, since: seq<real>, h: seq<Failure>, f: Failure, window: real)
    requires SameFromNow(stored, since, h, window)
    ensures SameFromNow(Within(stored, f.at, window) + [f.at], since + [f.at], h + [f], window)
  {
    hide Within;
    forall now: real | NotBefore(now, h + [f])
      ensures Within(Within(stored, f.at, window) + [f.at], now, window) == Within(since + [f.at], now, window)
    {
      LaterThanAll(now, h, f);
      KeptHitsAgreeAt(stored, since, f.at, window, now);
    }
  }

  lemma LaterThanAll(now: real, h: seq<Failure>, f: Failure)
    requires NotBefore(now, h + [f])
    ensures NotBefore(now, h) && f.at <= now
  {
    assert (h + [f])[|h|] == f;
    forall i | 0 <= i < |h| ensures h[i].at <= now { assert (h + [f])[i] == h[i]; }
  }

  /** What one record does to the count and the last trip of its model. */
  lemma StepRefines(stored: seq<real>, h: seq<Failure>, f: Failure, threshold: int, window: real)
    requires SameFromNow(stored, SinceTrip(h, f.model, threshold, window), h, window)
    requires NotBefore(f.at, h) && f.model != ""
    ensures Trips(h, f, threshold, window) <==> |Within(stored, f.at, window)| + 1 >= threshold
    ensures Trips(h, f, threshold, window) ==>
      && TripOf(h + [f], f.model, threshold, window) == At(f.at)
      && SameFromNow([], SinceTrip(h + [f], f.model, threshold, window), h + [f], window)
    ensures !Trips(h, f, threshold, window) ==>
      && TripOf(h + [f], f.model, threshold, window) == TripOf(h, f.model, threshold, window)
      && SameFromNow(Within(stored, f.at, window) + [f.at], SinceTrip(h + [f], f.model, threshold, window), h + [f], window)
  {
    KeptHitsStaySame(stored, SinceTrip(h, f.model, threshold, window), h, f, window);
    if Trips(h, f, threshold, window) {
      TripResets(h, f, threshold, window);
    } else {
      assert (h + [f])[..|h|] == h;
    }
  }

  lemma LongerHistoryStaysSame(stored: seq<real>, since: seq<real>, h: seq<Failure>, f: Failure, window: real)
    requires SameFromNow(stored, since, h, window)
    ensures SameFromNow(stored, since, h + [f], window)
  {
    forall now: real | NotBefore(now, h + [f]) ensures NotBefore(now, h) {
      LaterThanAll(now, h, f);
    }
  }

  // --------------------------------------------------------------------
  // The object
  // --------------------------------------------------------------------

  function StoredHits(hits: map<string, seq<real>>, m: string): seq<real> {
    if m in hits then hits[m] else []
  }

  /** For model `m`: the stored hits are as good as the full count, below the threshold, and the stored
      deadline is the last trip plus the window. */
  ghost predicate Refined(hits: map<string, seq<real>>, until: map<string, real>, h: seq<Failure>, m: string,
                          threshold: int, window: real)
  {
    var trip := TripOf(h, m, threshold, window);
    && SameFromNow(StoredHits(hits, m), SinceTrip(h, m, threshold, window), h, window)
    && (|StoredHits(hits, m)| < threshold || StoredHits(hits, m) == [])
    && (m in until <==> trip != Never)
    && (m in until ==> until[m] == trip.at + window)
  }

  ghost predicate AllRefined(hits: map<string, seq<real>>, until: map<string, real>, h: seq<Failure>,
                             threshold: int, window: real)
  {
    forall m :: Refined(hits, until, h, m, threshold, window)
  }

  lemma OthersStayRefined(hits: map<string, seq<real>>, until: map<string, real>, h: seq<Failure>, f: Failure,
                          hits': map<string, seq<real>>, until': map<string, real>, m: string,
                          threshold: int, window: real)
    requires Refined(hits, until, h, m, threshold, window) && (m != f.model || m == "")
    requires StoredHits(hits', m) == StoredHits(hits, m)
    requires (m in until' <==> m in until) && (m in until ==> until'[m] == until[m])
    ensures Refined(hits', until', h + [f], m, threshold, window)
  {
    OtherModelsUnaffected(h, f, m, threshold, window);
    LongerHistoryStaysSame(StoredHits(hits, m), SinceTrip(h, m, threshold, window), h, f, window);
  }

  class CooldownTable {
    const threshold: int
    const window: real
    var hits: map<string, seq<real>>
    var until: map<string, real>
    ghost var history: seq<Failure>

    constructor (threshold: int, window: real)
      ensures Valid() && history == [] && this.threshold == threshold && this.window == window
    {
      this.threshold, this.window := threshold, window;
      hits, until, history := map[], map[], [];
    }

    ghost predicate Valid()
      reads this
    {
      AllRefined(hits, until, history, threshold, window)
    }

    /** Logs one failure. The model goes into cooldown exactly when the specification trips. */
    method Record(model: string, now: real)
      requires Valid() && NotBefore(now, history)
      modifies this
      ensures Valid() && history == old(history) + [Failure(model, now)]
      ensures model != "" ==>
        (old(Trips(history, Failure(model, now), threshold, window)) <==> StoredHits(hits, model) == [])
      ensures forall m :: m != model || m == "" ==>
        StoredHits(hits, m) == old(StoredHits(hits, m))
        && (m in until <==> m in old(until)) && (m in until ==> until[m] == old(until)[m])
    {
      ghost var f, h, hits0, until0 := Failure(model, now), history, hits, until;
      assert Refined(hits, until, h, model, threshold, window);
      history := history + [f];
      if model != "" {
        var recent := Filter(StoredHits(hits, model), now, window);
        StepRefines(StoredHits(hits, model), h, f, threshold, window);
        recent := recent + [now];
        if |recent| >= threshold {
          until := until[model := now + window];
          hits := hits[model := []];
        } else {
          hits := hits[model := recent];
        }
        assert Refined(hits, until, history, model, threshold, window);
      }
      forall m | m != model || m == "" ensures Refined(hits, until, history, m, threshold, window) {
        OthersStayRefined(hits0, until0, h, f, hits, until, m, threshold, window);
      }
    }

    /** The models that are in cooldown at `now`. */
    method Active(now: real) returns (models: set<string>)
      requires Valid()
      ensures forall m :: m in models <==> Cooling(TripOf(history, m, threshold, window), now, window)
    {
      models := set m | m in until && until[m] > now;
      forall m ensures m in models <==> Cooling(TripOf(history, m, threshold, window), now, window) {
        assert Refined(hits, until, history, m, threshold, window);
      }
    }

    /** The query for one model. Its default deadline of zero makes it wrong, for a model that never
        tripped, exactly at negative times. */
    method InCooldown(model: string, now: real) returns (cooling: bool)
      requires Valid()
      ensures cooling == Cooling(TripOf(history, model, threshold, window), now, window)
        <==> now >= 0.0 || TripOf(history, model, threshold, window) != Never
    {
      assert Refined(hits, until, history, model, threshold, window);
      cooling := (if model in until then until[model] else 0.0) > now;
    }
  }

  /** A trip at `s` cools the model until `s + window`, exclusively. */
  predicate Cooling(trip: LastTrip, now: real, window: real) {
    trip != Never && now < trip.at + window
  }

  method Filter(times: seq<real>, now: real, window: real) returns (recent: seq<real>)
    ensures recent == Within(times, now, window)
  {
    recent := [];
    for i := 0 to |times|
      invariant recent == Within(times[..i], now, window)
    {
      assert times[..i + 1][..i] == times[..i];
      if now - times[i] < window {
        recent := recent + [times[i]];
      }
    }
    assert times[..|times|] == times;
  }
}
