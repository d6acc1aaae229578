/** The model ladder and the pure routing decisions (proxy/routing.py; `_decide_served` in proxy/main.py). */
module Routing {
  import opened Options
  import Text

  datatype Tier = Haiku | Sonnet | Opus {
    function Rank(): nat {
      match this
      case Haiku => 0
      case Sonnet => 1
      case Opus => 2
    }

    function Keyword(): string {
      match this
      case Haiku => "haiku"
      case Sonnet => "sonnet"
      case Opus => "opus"
    }
  }

  datatype Model = Model(id: string, tier: Tier, cost: real)

  type Pool = seq<Model>

  ghost predicate DistinctIds(pool: Pool) {
    forall i, j :: 0 <= i < j < |pool| ==> pool[i].id != pool[j].id
  }

  // --------------------------------------------------------------------
  // Resolving a requested id
  // --------------------------------------------------------------------

  function LowerChar(c: char): char {
    if 'A' <= c <= 'Z' then c - 'A' + 'a' else c
  }

  function Lower(s: string): (r: string)
    ensures |r| == |s|
  {
    seq(|s|, i requires 0 <= i < |s| => LowerChar(s[i]))
  }

  function FirstById(pool: Pool, id: string): (r: Option<Model>)
    ensures r.Some? ==> exists i :: 0 <= i < |pool| && pool[i] == r.value && pool[i].id == id
                                      && forall j :: 0 <= j < i ==> pool[j].id != id
    ensures r.None? ==> forall m :: m in pool ==> m.id != id
  {
    if pool == [] then None
    else if pool[0].id == id then Some(pool[0])
    else
      assert forall i :: 0 < i < |pool| ==> pool[1..][i - 1] == pool[i];
      FirstById(pool[1..], id)
  }

  function FirstByTier(pool: Pool, tier: Tier): (r: Option<Model>)
    ensures r.Some? ==> exists i :: 0 <= i < |pool| && pool[i] == r.value && pool[i].tier == tier
                                      && forall j :: 0 <= j < i ==> pool[j].tier != tier
    ensures r.None? ==> forall m :: m in pool ==> m.tier != tier
  {
    if pool == [] then None
    else if pool[0].tier == tier then Some(pool[0])
    else
      assert forall i :: 0 < i < |pool| ==> pool[1..][i - 1] == pool[i];
      FirstByTier(pool[1..], tier)
  }

  /** The first entry of the first of the tiers that the name mentions and the pool has. */
  function ByKeyword(pool: Pool, name: string, tiers: seq<Tier>): (r: Option<Model>)
    ensures r.Some? ==> r.value in pool && r.value.tier in tiers && Text.Contains(name, r.value.tier.Keyword())
    ensures r.None? <==> forall m :: m in pool && m.tier in tiers ==> !Text.Contains(name, m.tier.Keyword())
  {
    if tiers == [] then None
    else if Text.Contains(name, tiers[0].Keyword()) && FirstByTier(pool, tiers[0]).Some? then FirstByTier(pool, tiers[0])
    else ByKeyword(pool, name, tiers[1..])
  }

  /** The pool entry a requested id stands for: exact id first, then the tier named in it. */
  function Find(pool: Pool, requested: string): (r: Option<Model>)
    ensures r.Some? ==> r.value in pool && requested != ""
  {
    if requested == "" then None
    else if FirstById(pool, requested).Some? then FirstById(pool, requested)
    else ByKeyword(pool, Lower(requested), [Opus, Sonnet, Haiku])
  }

  /** With distinct ids, a pool entry's own id finds that very entry. */
  lemma {:induction false} FirstByIdExact(pool: Pool, m: Model)
    requires DistinctIds(pool) && m in pool
    ensures FirstById(pool, m.id) == Some(m)
  {
    var i :| 0 <= i < |pool| && pool[i] == m;
    if i == 0 {
    } else {
      assert pool[0].id != pool[i].id;
      assert pool[1..][i - 1] == m;
      FirstByIdExact(pool[1..], m);
    }
  }

  lemma {:induction false} FirstByTierExact(pool: Pool, i: nat)
    requires i < |pool| && forall j :: 0 <= j < i ==> pool[j].tier != pool[i].tier
    ensures FirstByTier(pool, pool[i].tier) == Some(pool[i])
  {
    if i == 0 {
    } else {
      FirstByTierExact(pool[1..], i - 1);
    }
  }

  /** An id that is not in the pool stands for the first entry of the largest tier it names. */
  lemma DatedIdFindsItsTier(pool: Pool, requested: string, i: nat)
    requires i < |pool| && requested != "" && forall m :: m in pool ==> m.id != requested
    requires Text.Contains(Lower(requested), pool[i].tier.Keyword())
    requires forall j :: 0 <= j < i ==> pool[j].tier != pool[i].tier
    requires forall m :: m in pool && m.tier.Rank() > pool[i].tier.Rank() ==>
               !Text.Contains(Lower(requested), m.tier.Keyword())
    ensures Find(pool, requested) == Some(pool[i])
  {
    hide Lower, Text.Contains, FirstByTier;
    FirstByTierExact(pool, i);
    LargestNamedTier(pool, Lower(requested));
    assert FirstByTier(pool, pool[i].tier).Some?;
  }

  lemma LargestNamedTier(pool: Pool, name: string)
    ensures ByKeyword(pool, name, [Opus, Sonnet, Haiku]) ==
      if Text.Contains(name, "opus") && FirstByTier(pool, Opus).Some? then FirstByTier(pool, Opus)
      else if Text.Contains(name, "sonnet") && FirstByTier(pool, Sonnet).Some? then FirstByTier(pool, Sonnet)
      else if Text.Contains(name, "haiku") && FirstByTier(pool, Haiku).Some? then FirstByTier(pool, Haiku)
      else None
  {
    hide Text.Contains, FirstByTier, ByKeyword;
    assert [Opus, Sonnet, Haiku] == [Opus] + ([Sonnet] + ([Haiku] + []));
    NextKeyword(pool, name, Opus, [Sonnet] + ([Haiku] + []));
    NextKeyword(pool, name, Sonnet, [Haiku] + []);
    NextKeyword(pool, name, Haiku, []);
    NoKeyword(pool, name);
  }

  lemma NextKeyword(pool: Pool, name: string, tier: Tier, rest: seq<Tier>)
    ensures ByKeyword(pool, name, [tier] + rest) ==
      if Text.Contains(name, tier.Keyword()) && FirstByTier(pool, tier).Some? then FirstByTier(pool, tier)
      else ByKeyword(pool, name, rest)
  {
    hide Text.Contains, FirstByTier;
    assert ([tier] + rest)[1..] == rest;
  }

  lemma NoKeyword(pool: Pool, name: string)
    ensures ByKeyword(pool, name, []) == None
  {
  }

  lemma EveryTierIsTried(pool: Pool)
    ensures forall m :: m in pool ==> m.tier in [Opus, Sonnet, Haiku]
  {
    var tiers := [Opus, Sonnet, Haiku];
    forall m | m in pool ensures m.tier in tiers {
      match m.tier
      case Opus => assert tiers[0] == m.tier;
      case Sonnet => assert tiers[1] == m.tier;
      case Haiku => assert tiers[2] == m.tier;
    }
  }

  /** Nothing is found exactly for the empty id and for one that is no entry's and names no entry's tier. */
  lemma FindsNothingExactly(pool: Pool, requested: string)
    ensures Find(pool, requested).None? <==>
      || requested == ""
      || forall m :: m in pool ==> m.id != requested && !Text.Contains(Lower(requested), m.tier.Keyword())
  {
    if requested != "" && FirstById(pool, requested).None? {
      EveryTierIsTried(pool);
    }
  }

  lemma FindExact(pool: Pool, m: Model)
    requires DistinctIds(pool) && m in pool && m.id != ""
    ensures Find(pool, m.id) == Some(m)
  {
    FirstByIdExact(pool, m);
  }

  // --------------------------------------------------------------------
  // Choosing from the ladder
  // --------------------------------------------------------------------

  /** Order of preference when routing down: cheaper first, then the smaller tier. */
  predicate NoDearer(a: Model, b: Model) {
    a.cost < b.cost || (a.cost == b.cost && a.tier.Rank() <= b.tier.Rank())
  }

  /** The first of the entries that no other beats. */
  function Cheapest(ms: seq<Model>): (m: Model)
    requires ms != []
    ensures m in ms && forall x :: x in ms ==> NoDearer(m, x)
  {
    var last := ms[|ms| - 1];
    if |ms| == 1 then last
    else
      var rest := Cheapest(ms[..|ms| - 1]);
      assert forall x :: x in ms ==> x in ms[..|ms| - 1] || x == last;
      if NoDearer(rest, last) then rest else last
  }

  /** The first of the dearest entries. */
  function Dearest(ms: seq<Model>): (m: Model)
    requires ms != []
    ensures m in ms && forall x :: x in ms ==> x.cost <= m.cost
  {
    var last := ms[|ms| - 1];
    if |ms| == 1 then last
    else
      var rest := Dearest(ms[..|ms| - 1]);
      assert forall x :: x in ms ==> x in ms[..|ms| - 1] || x == last;
      if last.cost <= rest.cost then rest else last
  }

  function CandidatesFor(pool: Pool, minRank: nat, maxCost: real, active: set<string>, fits: set<Tier>): (ms: seq<Model>)
    ensures forall m :: m in ms <==>
      m in pool && m.tier.Rank() >= minRank && m.cost <= maxCost && m.id !in active && m.tier in fits
  {
    if pool == [] then []
    else
      var m, rest := pool[0], CandidatesFor(pool[1..], minRank, maxCost, active, fits);
      if m.tier.Rank() >= minRank && m.cost <= maxCost && m.id !in active && m.tier in fits then [m] + rest else rest
  }

  function CheaperThan(pool: Pool, cost: real, active: set<string>): (ms: seq<Model>)
    ensures forall m :: m in ms <==> m in pool && m.cost < cost && m.id !in active
  {
    if pool == [] then []
    else
      var m, rest := pool[0], CheaperThan(pool[1..], cost, active);
      if m.cost < cost && m.id !in active then [m] + rest else rest
  }

  const ALL_TIERS: set<Tier> := {Haiku, Sonnet, Opus}

  datatype Difficulty = Trivial | Normal | Hard {
    function MinRank(): nat {
      match this
      case Trivial => 0
      case Normal => 1
      case Hard => 2
    }
  }

  /** Proactive down-routing, only for the difficulties it is enabled for. */
  function SelectModel(requested: string, difficulty: Difficulty, pool: Pool, active: set<string>,
                       downgrade: set<Difficulty>): string
  {
    var req := Find(pool, requested);
    if req.None? || difficulty !in downgrade then requested
    else
      var ms := CandidatesFor(pool, difficulty.MinRank(), req.value.cost, active, ALL_TIERS);
      if ms == [] then requested else Cheapest(ms).id
  }

  /** The cost ceiling of background sessions. */
  function SelectBgCeiling(requested: string, ceilingModel: string, pool: Pool): string {
    var req, ceiling := Find(pool, requested), Find(pool, ceilingModel);
    if req.None? || ceiling.None? then requested
    else if req.value.cost <= ceiling.value.cost then requested
    else ceiling.value.id
  }

  /** Where an auto-mode permission check is served: `fits` are the tiers whose window holds the transcript,
      `capped` says that the optional global size cap is exceeded. */
  function SelectClassifierModel(requested: string, pool: Pool, active: set<string>, floor: Tier,
                                 fits: set<Tier>, capped: bool): string
  {
    var req := Find(pool, requested);
    if req.None? || capped then requested
    else
      var ms := CandidatesFor(pool, floor.Rank(), req.value.cost, active, fits);
      if ms == [] then requested else Cheapest(ms).id
  }

  /** The next cheaper model that is not cooling down; the empty string for none. */
  function ShedModel(current: string, pool: Pool, active: set<string>): string {
    var cur := Find(pool, current);
    if cur.None? then ""
    else
      var ms := CheaperThan(pool, cur.value.cost, active);
      if ms == [] then "" else Dearest(ms).id
  }

  // --------------------------------------------------------------------
  // What the choices promise
  // --------------------------------------------------------------------

  /** `served` is the requested id, or a pool entry that costs no more than what the request resolves to. */
  ghost predicate NeverDearer(pool: Pool, requested: string, served: string) {
    served == requested
    || (Find(pool, requested).Some? && exists m :: m in pool && m.id == served && m.cost <= Find(pool, requested).value.cost)
  }

  /** The choice is optimal: routed calls go to an eligible entry that no eligible entry beats, and calls
      stay where they are only when routing is off, the id is unknown or nothing is eligible. */
  lemma SelectModelIsBest(requested: string, difficulty: Difficulty, pool: Pool, active: set<string>,
                          downgrade: set<Difficulty>)
    ensures var served := SelectModel(requested, difficulty, pool, active, downgrade);
      var req := Find(pool, requested);
      && NeverDearer(pool, requested, served)
      && (req.Some? && difficulty in downgrade ==>
            if forall m :: m in pool ==> !Eligible(m, difficulty.MinRank(), req.value.cost, active, ALL_TIERS)
            then served == requested
            else exists m :: m in pool && m.id == served && Eligible(m, difficulty.MinRank(), req.value.cost, active, ALL_TIERS)
                   && forall x :: x in pool && Eligible(x, difficulty.MinRank(), req.value.cost, active, ALL_TIERS) ==> NoDearer(m, x))
  {
    var req := Find(pool, requested);
    if req.Some? && difficulty in downgrade {
      BestCandidate(pool, difficulty.MinRank(), req.value.cost, active, ALL_TIERS);
    }
  }

  predicate Eligible(m: Model, minRank: nat, maxCost: real, active: set<string>, fits: set<Tier>) {
    m.tier.Rank() >= minRank && m.cost <= maxCost && m.id !in active && m.tier in fits
  }

  lemma BestCandidate(pool: Pool, minRank: nat, maxCost: real, active: set<string>, fits: set<Tier>)
    ensures var ms := CandidatesFor(pool, minRank, maxCost, active, fits);
      if ms == [] then forall m :: m in pool ==> !Eligible(m, minRank, maxCost, active, fits)
      else Cheapest(ms) in pool && Eligible(Cheapest(ms), minRank, maxCost, active, fits)
           && forall x :: x in pool && Eligible(x, minRank, maxCost, active, fits) ==> NoDearer(Cheapest(ms), x)
  {
    var ms := CandidatesFor(pool, minRank, maxCost, active, fits);
    forall m | m in pool && Eligible(m, minRank, maxCost, active, fits) ensures m in ms {
    }
    if ms == [] {
    } else {
      assert Cheapest(ms) in ms;
    }
  }

  /** Shedding goes to the dearest entry strictly below the current one that is not cooling down,
      and gives up exactly when there is none (or it has no id). */
  lemma ShedGoesOneStepDown(current: string, pool: Pool, active: set<string>)
    requires Find(pool, current).Some?
    ensures var cost := Find(pool, current).value.cost;
      var next := ShedModel(current, pool, active);
      if forall m :: m in pool && m.cost < cost ==> m.id in active then next == ""
      else exists m :: m in pool && m.id == next && m.cost < cost && m.id !in active
             && forall x :: x in pool && x.cost < cost && x.id !in active ==> x.cost <= m.cost
  {
    var cost := Find(pool, current).value.cost;
    var ms := CheaperThan(pool, cost, active);
    if ms != [] {
      assert Dearest(ms) in ms;
    } else {
      forall m | m in pool && m.cost < cost ensures m.id in active {
        assert m !in ms;
      }
    }
  }

  // --------------------------------------------------------------------
  // The first decision of a request
  // --------------------------------------------------------------------

  /**
   * What the proxy knows about a request before it calls upstream. An untagged request has the empty
   * session name; `marked` says that the body has the marks of a permission check.
   */
  datatype Request = Request(requested: string, session: string, hasBody: bool, isMessages: bool, marked: bool,
                             difficulty: Difficulty, fits: set<Tier>, capped: bool)

  datatype Config = Config(pool: Pool, routeEnabled: bool, bgCeilingEnabled: bool, bgCeilingModel: string,
                           downgrade: set<Difficulty>, classifierRouteEnabled: bool, classifierRouteWork: bool,
                           classifierFloor: Tier, deepseekEnabled: bool, deepseekPrefix: string, deepseekModel: string)

  const WORK_PREFIX := "work-"
  const BG_PREFIX := "bg-"

  predicate IsWork(r: Request) {
    WORK_PREFIX <= r.session
  }

  predicate IsBg(r: Request) {
    BG_PREFIX <= r.session
  }

  predicate IsDeepseek(r: Request, c: Config) {
    c.deepseekEnabled && r.session != "" && c.deepseekPrefix <= r.session
  }

  /** A permission check that the proxy shields. */
  predicate IsClassifier(r: Request, c: Config) {
    if IsDeepseek(r, c) then false
    else if !(c.classifierRouteEnabled && r.isMessages) then false
    else if IsWork(r) && !c.classifierRouteWork then false
    else r.marked
  }

  /** The prefixes are fixed, so no session is both a work and a background session. */
  lemma WorkIsNotBackground(r: Request)
    ensures !(IsWork(r) && IsBg(r))
  {
    if IsWork(r) {
      assert r.session[0] == WORK_PREFIX[0];
    }
  }

  function DecideServed(r: Request, c: Config, active: set<string>): string {
    if IsDeepseek(r, c) then c.deepseekModel
    else if IsClassifier(r, c) && r.hasBody then
      SelectClassifierModel(r.requested, c.pool, active, c.classifierFloor, r.fits, r.capped)
    else if c.bgCeilingEnabled && r.isMessages && r.hasBody && IsBg(r) then
      SelectBgCeiling(r.requested, c.bgCeilingModel, c.pool)
    else if !(c.routeEnabled && r.isMessages && r.hasBody && !IsWork(r)) then r.requested
    else SelectModel(r.requested, r.difficulty, c.pool, active, c.downgrade)
  }

  /** A background session's turn is served at the lesser of its request and the ceiling. */
  lemma BackgroundTurnsAreCapped(r: Request, c: Config, active: set<string>)
    requires "bg-" <= r.session && r.isMessages && r.hasBody && c.bgCeilingEnabled
    requires !IsDeepseek(r, c) && !IsClassifier(r, c)
    requires DistinctIds(c.pool) && Find(c.pool, r.requested).Some?
    requires Find(c.pool, c.bgCeilingModel).Some? && Find(c.pool, c.bgCeilingModel).value.id != ""
    ensures var req, cap := Find(c.pool, r.requested).value.cost, Find(c.pool, c.bgCeilingModel).value.cost;
      var served := Find(c.pool, DecideServed(r, c, active));
      served.Some? && served.value.cost == if req <= cap then req else cap
  {
    BgCeilingCaps(r.requested, c.bgCeilingModel, c.pool);
  }

  /** A permission check is served by the best entry at or above the floor that holds its transcript. */
  lemma ChecksGetTheBestModel(r: Request, c: Config, active: set<string>)
    requires r.marked && r.isMessages && r.hasBody && !r.capped && c.classifierRouteEnabled
    requires !IsDeepseek(r, c) && ("work-" <= r.session ==> c.classifierRouteWork) && Find(c.pool, r.requested).Some?
    ensures var served := DecideServed(r, c, active);
      var floor, cost := c.classifierFloor.Rank(), Find(c.pool, r.requested).value.cost;
      if forall m :: m in c.pool ==> !Eligible(m, floor, cost, active, r.fits) then served == r.requested
      else exists m :: m in c.pool && m.id == served && Eligible(m, floor, cost, active, r.fits)
             && forall x :: x in c.pool && Eligible(x, floor, cost, active, r.fits) ==> NoDearer(m, x)
  {
    ClassifierModelIsBest(r.requested, c.pool, active, c.classifierFloor, r.fits);
  }

  /** Any other turn goes to the best entry for its difficulty where down-routing is enabled for that. */
  lemma OrdinaryTurnsGetTheBestModel(r: Request, c: Config, active: set<string>)
    requires r.isMessages && r.hasBody && c.routeEnabled && !("work-" <= r.session)
    requires !IsDeepseek(r, c) && !IsClassifier(r, c) && !(c.bgCeilingEnabled && "bg-" <= r.session)
    requires Find(c.pool, r.requested).Some?
    ensures var served := DecideServed(r, c, active);
      var rank, cost := r.difficulty.MinRank(), Find(c.pool, r.requested).value.cost;
      if r.difficulty !in c.downgrade || forall m :: m in c.pool ==> !Eligible(m, rank, cost, active, ALL_TIERS)
      then served == r.requested
      else exists m :: m in c.pool && m.id == served && Eligible(m, rank, cost, active, ALL_TIERS)
             && forall x :: x in c.pool && Eligible(x, rank, cost, active, ALL_TIERS) ==> NoDearer(m, x)
  {
    SelectModelIsBest(r.requested, r.difficulty, c.pool, active, c.downgrade);
  }

  /** Requests that nothing routes are served by the model they ask for, known or not. */
  lemma UnroutedIsServedAsAsked(r: Request, c: Config, active: set<string>)
    requires !IsDeepseek(r, c)
    requires !r.isMessages || !r.hasBody || Find(c.pool, r.requested).None?
             || (!IsClassifier(r, c) && "work-" <= r.session)
             || (!IsClassifier(r, c) && !c.routeEnabled && !(c.bgCeilingEnabled && "bg-" <= r.session))
    ensures DecideServed(r, c, active) == r.requested
  {
    WorkIsNotBackground(r);
  }

  /** Outside deepseek sessions the decision never upgrades. */
  lemma DecisionNeverDearer(r: Request, c: Config, active: set<string>)
    requires !IsDeepseek(r, c)
    ensures NeverDearer(c.pool, r.requested, DecideServed(r, c, active))
  {
    var req := Find(c.pool, r.requested);
    if req.Some? {
      BestCandidate(c.pool, c.classifierFloor.Rank(), req.value.cost, active, r.fits);
      BestCandidate(c.pool, r.difficulty.MinRank(), req.value.cost, active, ALL_TIERS);
    }
  }

  /** A permission check is served by the best entry at or above the floor that the transcript fits. */
  lemma ClassifierModelIsBest(requested: string, pool: Pool, active: set<string>, floor: Tier, fits: set<Tier>)
    requires Find(pool, requested).Some?
    ensures var served := SelectClassifierModel(requested, pool, active, floor, fits, false);
      var cost := Find(pool, requested).value.cost;
      if forall m :: m in pool ==> !Eligible(m, floor.Rank(), cost, active, fits) then served == requested
      else exists m :: m in pool && m.id == served && Eligible(m, floor.Rank(), cost, active, fits)
             && forall x :: x in pool && Eligible(x, floor.Rank(), cost, active, fits) ==> NoDearer(m, x)
  {
    BestCandidate(pool, floor.Rank(), Find(pool, requested).value.cost, active, fits);
  }

  /** The ceiling caps: what is served costs the lesser of the request and the ceiling. */
  lemma BgCeilingCaps(requested: string, ceilingModel: string, pool: Pool)
    requires DistinctIds(pool) && Find(pool, requested).Some? && Find(pool, ceilingModel).Some?
    requires Find(pool, ceilingModel).value.id != ""
    ensures var req, cap := Find(pool, requested).value.cost, Find(pool, ceilingModel).value.cost;
      var served := Find(pool, SelectBgCeiling(requested, ceilingModel, pool));
      served.Some? && served.value.cost == if req <= cap then req else cap
  {
    FindExact(pool, Find(pool, ceilingModel).value);
  }
}
