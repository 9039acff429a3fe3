/** Offline replay of LinUCB arms: `scripts/train_linucb.py`, with the context vector of
    `app/services/moment/linucb.py`. Floats are exact reals. */
module LinUcb {
  import opened Counting
  import opened Linear
  import opened Permutations

  // ---------- context ----------

  /** The features that the context vector is made of. */
  datatype ArmContext = ArmContext(isRich: bool, isForward: bool, topicCount: int, textLen: int, ageHours: real,
                                   engagement: real, authorQuality: real, isFollowed: bool, topicHit: int)

  /** What the replay knows of one resource. */
  datatype Context = Context(textLen: int, ageHours: real, engagement: real, authorQuality: real)

  /** The context that the replay builds: no viewer, no topics, and a long text counts as rich. */
  function ArmContextOf(c: Context): ArmContext {
    ArmContext(c.textLen >= 60, false, 0, c.textLen, c.ageHours, c.engagement, c.authorQuality, false, 0)
  }

  function Indicator(b: bool): real {
    if b then 1.0 else 0.0
  }

  function RawFeatures(c: ArmContext): (raw: seq<real>)
    ensures |raw| == 10
  {
    [ 1.0, Indicator(c.isRich), Indicator(c.isForward), c.topicCount as real, c.textLen as real / 100.0,
      c.ageHours / 24.0, c.engagement, c.authorQuality, Indicator(c.isFollowed), c.topicHit as real ]
  }

  /** `feature_dim`: the configured dimension, at least one. */
  function FeatureDim(configured: int): (d: nat)
    ensures d >= 1 && (configured >= 1 ==> d == configured) && (configured < 1 ==> d == 1)
  {
    if configured > 1 then configured else 1
  }

  /** `context_vector`: padded with zeros or cut to dimension `d`. */
  function VectorOf(c: ArmContext, d: nat): (x: Vec)
    ensures |x| == d && forall i :: 0 <= i < d ==> x[i] == if i < 10 then RawFeatures(c)[i] else 0.0
  {
    var raw := RawFeatures(c);
    if d <= 10 then raw[..d] else raw + seq(d - 10, _ => 0.0)
  }

  /** The context vector of the replay. */
  function ContextVector(c: Context, d: nat): (x: Vec)
    ensures |x| == d
  {
    VectorOf(ArmContextOf(c), d)
  }

  /** Reading the features back from their places. */
  function ReadBack(x: Vec): ArmContext
    requires |x| >= 10
  {
    ArmContext(x[1] == 1.0, x[2] == 1.0, x[3].Floor, (x[4] * 100.0).Floor, x[5] * 24.0, x[6], x[7], x[8] == 1.0, x[9].Floor)
  }

  /** From ten places on every feature can be read back from its own place, the first place is constant, and
      all further places are empty. */
  lemma FeaturesAreRecovered(c: ArmContext, d: nat)
    requires d >= 10
    ensures ReadBack(VectorOf(c, d)) == c && VectorOf(c, d)[0] == 1.0
    ensures forall i :: 10 <= i < d ==> VectorOf(c, d)[i] == 0.0
  {
    var x, raw := VectorOf(c, d), RawFeatures(c);
    assert x[0] == raw[0] && x[1] == raw[1] && x[2] == raw[2] && x[3] == raw[3] && x[4] == raw[4];
    assert x[5] == raw[5] && x[6] == raw[6] && x[7] == raw[7] && x[8] == raw[8] && x[9] == raw[9];
    assert raw[4] * 100.0 == c.textLen as real;
  }

  /** With fewer places the vector is cut. */
  lemma VectorIsCut(c: ArmContext, d: nat, e: nat)
    requires d <= e
    ensures VectorOf(c, e)[..d] == VectorOf(c, d)
  {
  }

  /** The replay puts the four things it knows into their places, and marks long texts. */
  lemma ReplayContext(c: Context, d: nat)
    requires d >= 10
    ensures var r := ReadBack(ContextVector(c, d));
            && r.textLen == c.textLen && r.ageHours == c.ageHours && r.engagement == c.engagement
            && r.authorQuality == c.authorQuality && (r.isRich <==> c.textLen >= 60)
            && !r.isForward && !r.isFollowed && r.topicCount == 0 && r.topicHit == 0
  {
    FeaturesAreRecovered(ArmContextOf(c), d);
  }

  /** The constant feature keeps every context vector away from zero. */
  lemma ContextIsNonzero(c: Context, d: nat)
    requires d >= 1
    ensures Dot(ContextVector(c, d), ContextVector(c, d)) >= 1.0
  {
    var x := ContextVector(c, d);
    DotSelf(x);
    assert x[0] == RawFeatures(ArmContextOf(c))[0] == 1.0;
    assert Products(x, x)[0] == 1.0;
  }

  // ---------- replay ----------

  /** One impression and its graded reward (0 none, 1 like, 2 comment, 3 favourite). */
  datatype Event = Event(bizId: int, grade: nat)

  /** Impressions of `id` among the first `k` events. */
  function Impressions(events: seq<Event>, k: nat, id: int): nat
    requires k <= |events|
  {
    if k == 0 then 0
    else Impressions(events, k - 1, id) + if events[k - 1].bizId == id then 1 else 0
  }

  /** The impressions of `id` whose reaction is worth at least `grade`. */
  ghost function Graded(events: seq<Event>, id: int, grade: nat): nat -> bool {
    (i: nat) => i < |events| && events[i].bizId == id && events[i].grade >= grade
  }

  function Rewards(events: seq<Event>, k: nat, id: int): nat
    requires k <= |events|
  {
    if k == 0 then 0
    else Rewards(events, k - 1, id) + if events[k - 1].bizId == id then events[k - 1].grade else 0
  }

  /** The impressions of `id`. */
  ghost function ShownAs(events: seq<Event>, id: int): nat -> bool {
    (i: nat) => i < |events| && events[i].bizId == id
  }

  /** The counts are numbers of events, and rewards add up over the events of one grade. */
  lemma {:induction false} ImpressionsAreEvents(events: seq<Event>, k: nat, id: int)
    requires k <= |events| && forall i :: 0 <= i < |events| ==> events[i].grade <= 3
    ensures Impressions(events, k, id) == |Among(k, ShownAs(events, id))|
    ensures Rewards(events, k, id)
         == |Among(k, Graded(events, id, 1))| + |Among(k, Graded(events, id, 2))| + |Among(k, Graded(events, id, 3))|
  {
    if k == 0 {
      AmongNone(ShownAs(events, id));
      AmongNone(Graded(events, id, 1));
      AmongNone(Graded(events, id, 2));
      AmongNone(Graded(events, id, 3));
    } else {
      ImpressionsAreEvents(events, k - 1, id);
      AmongStep(k - 1, ShownAs(events, id));
      AmongStep(k - 1, Graded(events, id, 1));
      AmongStep(k - 1, Graded(events, id, 2));
      AmongStep(k - 1, Graded(events, id, 3));
    }
  }

  /** The ids that have both an event among the first `k` and a known context. */
  function Arms(events: seq<Event>, k: nat, ctx: map<int, Context>): set<int>
    requires k <= |events|
  {
    set i | 0 <= i < k && events[i].bizId in ctx :: events[i].bizId
  }

  /** `n` rank-one updates of the identity. */
  ghost function ArmMatrix(n: nat, x: Vec): (a: Mat)
    ensures Square(a, |x|)
  {
    if n == 0 then Eye(|x|) else AddOuter(ArmMatrix(n - 1, x), x)
  }

  /** The stored matrix in closed form: A = I + n x xᵀ. */
  lemma {:induction false} ArmMatrixEntries(n: nat, x: Vec, i: nat, j: nat)
    requires i < |x| && j < |x|
    ensures ArmMatrix(n, x)[i][j] == (if i == j then 1.0 else 0.0) + n as real * (x[i] * x[j])
  {
    if n > 0 {
      ArmMatrixEntries(n - 1, x, i, j);
      var p := x[i] * x[j];
      assert ArmMatrix(n, x)[i][j] == ArmMatrix(n - 1, x)[i][j] + p;
    }
  }

  lemma RewardStep(r: real, grade: real, x: Vec)
    ensures Add(Scale(r / 3.0, x), Scale(grade / 3.0, x)) == Scale((r + grade) / 3.0, x)
  {
    var u, v := Add(Scale(r / 3.0, x), Scale(grade / 3.0, x)), Scale((r + grade) / 3.0, x);
    forall i | 0 <= i < |x| ensures u[i] == v[i] {
      assert (r / 3.0) * x[i] + (grade / 3.0) * x[i] == ((r + grade) / 3.0) * x[i];
    }
  }

  lemma {:induction false} ImpressionsInArms(events: seq<Event>, k: nat, ctx: map<int, Context>, id: int)
    requires id in ctx && k <= |events|
    ensures Impressions(events, k, id) > 0 <==> id in Arms(events, k, ctx)
    ensures Impressions(events, k, id) == 0 ==> Rewards(events, k, id) == 0
  {
    if k > 0 {
      ImpressionsInArms(events, k - 1, ctx, id);
    }
  }

  /** The four dictionaries as the replay builds them. */
  datatype Tallies = Tallies(a: map<int, Mat>, b: map<int, Vec>, counts: map<int, nat>, rewards: map<int, real>)

  /** The entry of one arm is what its impressions add up to. */
  ghost predicate ArmTallied(t: Tallies, id: int, x: Vec, n: nat, r: nat) {
    && id in t.a && id in t.b && id in t.counts && id in t.rewards
    && t.a[id] == ArmMatrix(n, x) && t.b[id] == Scale(r as real / 3.0, x) && t.counts[id] == n && t.rewards[id] == r as real
  }

  ghost predicate ArmReplayed(events: seq<Event>, k: nat, ctx: map<int, Context>, d: nat, t: Tallies, id: int)
    requires k <= |events| && id in ctx
  {
    ArmTallied(t, id, ContextVector(ctx[id], d), Impressions(events, k, id), Rewards(events, k, id))
  }

  ghost predicate SameKeys(t: Tallies, arms: set<int>) {
    t.a.Keys == t.b.Keys == t.counts.Keys == t.rewards.Keys == arms
  }

  ghost predicate Replayed(events: seq<Event>, k: nat, ctx: map<int, Context>, d: nat, t: Tallies)
    requires k <= |events|
  {
    && SameKeys(t, Arms(events, k, ctx))
    && forall id :: id in Arms(events, k, ctx) ==> ArmReplayed(events, k, ctx, d, t, id)
  }

  /** `a_map.setdefault(id, np.eye(d)) + np.outer(x, x)` */
  function CreditA(a: map<int, Mat>, id: int, x: Vec): (r: Mat)
    requires id in a ==> Square(a[id], |x|)
  {
    AddOuter(if id in a then a[id] else Eye(|x|), x)
  }

  /** `b_map.setdefault(id, np.zeros(d)) + (grade / 3.0) * x` */
  function CreditB(b: map<int, Vec>, id: int, x: Vec, grade: nat): (r: Vec)
    requires id in b ==> |b[id]| == |x|
  {
    Add(if id in b then b[id] else Zero(|x|), Scale(grade as real / 3.0, x))
  }

  /** One impression of `id` credited to the dictionaries. */
  function Credit(t: Tallies, id: int, x: Vec, grade: nat): Tallies
    requires id in t.a ==> Square(t.a[id], |x|)
    requires id in t.b ==> |t.b[id]| == |x|
  {
    Tallies(
      t.a[id := CreditA(t.a, id, x)],
      t.b[id := CreditB(t.b, id, x, grade)],
      t.counts[id := (if id in t.counts then t.counts[id] else 0) + 1],
      t.rewards[id := (if id in t.rewards then t.rewards[id] else 0.0) + grade as real])
  }

  /** The replay loop of `train`. */
  method Replay(events: seq<Event>, ctx: map<int, Context>, d: nat) returns (t: Tallies)
    ensures Replayed(events, |events|, ctx, d, t)
  {
    t := Tallies(map[], map[], map[], map[]);
    for k := 0 to |events|
      invariant Replayed(events, k, ctx, d, t)
    {
      var id, grade := events[k].bizId, events[k].grade;
      if id !in ctx {
        continue;
      }
      var x := ContextVector(ctx[id], d);
      CreditedStep(events, k, ctx, d, t, x);
      t := Credit(t, id, x, grade);
    }
  }

  lemma CreditedStep(events: seq<Event>, k: nat, ctx: map<int, Context>, d: nat, t: Tallies, x: Vec)
    requires k < |events| && events[k].bizId in ctx && Replayed(events, k, ctx, d, t)
    requires x == ContextVector(ctx[events[k].bizId], d)
    ensures events[k].bizId in t.a ==> Square(t.a[events[k].bizId], |x|)
    ensures events[k].bizId in t.b ==> |t.b[events[k].bizId]| == |x|
    ensures Replayed(events, k + 1, ctx, d, Credit(t, events[k].bizId, x, events[k].grade))
  {
    var id, grade := events[k].bizId, events[k].grade;
    ArmsStep(events, k, ctx);
    OwnStep(events, k, ctx, d, t, x);
    CreditKeys(t, id, x, grade, Arms(events, k, ctx));
    OthersStep(events, k, ctx, d, t, x);
    AllReplayed(events, k, ctx, d, Credit(t, id, x, grade), id);
  }

  lemma ArmsStep(events: seq<Event>, k: nat, ctx: map<int, Context>)
    requires k < |events|
    ensures Arms(events, k + 1, ctx)
         == Arms(events, k, ctx) + if events[k].bizId in ctx then {events[k].bizId} else {}
  {
  }

  lemma CreditKeys(t: Tallies, id: int, x: Vec, grade: nat, arms: set<int>)
    requires id in t.a ==> Square(t.a[id], |x|)
    requires id in t.b ==> |t.b[id]| == |x|
    requires SameKeys(t, arms)
    ensures SameKeys(Credit(t, id, x, grade), arms + {id})
  {
  }

  lemma AllReplayed(events: seq<Event>, k: nat, ctx: map<int, Context>, d: nat, t: Tallies, id: int)
    requires k < |events| && id in ctx && ArmReplayed(events, k + 1, ctx, d, t, id)
    requires SameKeys(t, Arms(events, k + 1, ctx)) && Arms(events, k + 1, ctx) == Arms(events, k, ctx) + {id}
    requires forall other :: other in Arms(events, k, ctx) && other != id ==> ArmReplayed(events, k + 1, ctx, d, t, other)
    ensures Replayed(events, k + 1, ctx, d, t)
  {
  }

  lemma OwnStep(events: seq<Event>, k: nat, ctx: map<int, Context>, d: nat, t: Tallies, x: Vec)
    requires k < |events| && events[k].bizId in ctx && Replayed(events, k, ctx, d, t)
    requires x == ContextVector(ctx[events[k].bizId], d)
    ensures events[k].bizId in t.a ==> Square(t.a[events[k].bizId], |x|)
    ensures events[k].bizId in t.b ==> |t.b[events[k].bizId]| == |x|
    ensures ArmReplayed(events, k + 1, ctx, d, Credit(t, events[k].bizId, x, events[k].grade), events[k].bizId)
  {
    var id, grade := events[k].bizId, events[k].grade;
    var n, r := Impressions(events, k, id), Rewards(events, k, id);
    ImpressionsInArms(events, k, ctx, id);
    if id in t.a {
      assert ArmReplayed(events, k, ctx, d, t, id);
    }
    CreditTallied(t, id, x, n, r, grade, Impressions(events, k + 1, id), Rewards(events, k + 1, id));
  }

  lemma OthersStep(events: seq<Event>, k: nat, ctx: map<int, Context>, d: nat, t: Tallies, x: Vec)
    requires k < |events| && Replayed(events, k, ctx, d, t)
    requires events[k].bizId in t.a ==> Square(t.a[events[k].bizId], |x|)
    requires events[k].bizId in t.b ==> |t.b[events[k].bizId]| == |x|
    ensures forall other :: other in Arms(events, k, ctx) && other != events[k].bizId
              ==> ArmReplayed(events, k + 1, ctx, d, Credit(t, events[k].bizId, x, events[k].grade), other)
  {
    var arms := Arms(events, k, ctx);
    forall other | other in arms && other != events[k].bizId
      ensures ArmReplayed(events, k + 1, ctx, d, Credit(t, events[k].bizId, x, events[k].grade), other)
    {
      assert ArmReplayed(events, k, ctx, d, t, other);
      CreditKeepsOthers(t, events[k].bizId, x, events[k].grade, other, ContextVector(ctx[other], d),
                        Impressions(events, k, other), Rewards(events, k, other));
    }
  }

  lemma CreditKeepsOthers(t: Tallies, id: int, x: Vec, grade: nat, other: int, z: Vec, m: nat, q: nat)
    requires id in t.a ==> Square(t.a[id], |x|)
    requires id in t.b ==> |t.b[id]| == |x|
    requires other != id && ArmTallied(t, other, z, m, q)
    ensures ArmTallied(Credit(t, id, x, grade), other, z, m, q)
  {
  }

  lemma CreditTallied(t: Tallies, id: int, x: Vec, n: nat, r: nat, grade: nat, n': nat, r': nat)
    requires id in t.a ==> ArmTallied(t, id, x, n, r)
    requires id !in t.a ==> id !in t.b && id !in t.counts && id !in t.rewards && n == 0 && r == 0
    requires n' == n + 1 && r' == r + grade
    ensures (id in t.a ==> Square(t.a[id], |x|)) && (id in t.b ==> |t.b[id]| == |x|)
    ensures ArmTallied(Credit(t, id, x, grade), id, x, n', r')
  {
    assert Scale(0.0 / 3.0, x) == Zero(|x|);
    RewardStep(r as real, grade as real, x);
  }

  // ---------- what a replayed arm is ----------

  /** A y = y + n (x·y) x. */
  lemma {:induction false} ArmApply(n: nat, x: Vec, y: Vec) returns (c: real)
    requires |x| == |y|
    ensures c == n as real * Dot(x, y)
    ensures Apply(ArmMatrix(n, x), y) == Add(y, Scale(c, x))
  {
    if n == 0 {
      ApplyEye(y);
      c := 0.0;
      AddNothing(y, x);
    } else {
      var p := ArmApply(n - 1, x, y);
      c := p + Dot(x, y);
      OuterOnTop(ArmMatrix(n - 1, x), x, y, p);
    }
  }

  lemma AddNothing(y: Vec, x: Vec)
    requires |x| == |y|
    ensures Add(y, Scale(0.0, x)) == y
  {
  }

  lemma OuterOnTop(a: Mat, x: Vec, y: Vec, p: real)
    requires |x| == |y| && Square(a, |x|) && Apply(a, y) == Add(y, Scale(p, x))
    ensures Apply(AddOuter(a, x), y) == Add(y, Scale(p + Dot(x, y), x))
  {
    ApplyAddOuter(a, x, y);
    AddTwice(y, p, Dot(x, y), x);
  }

  lemma AddTwice(y: Vec, p: real, q: real, x: Vec)
    requires |x| == |y|
    ensures Add(Add(y, Scale(p, x)), Scale(q, x)) == Add(y, Scale(p + q, x))
  {
    var l, r := Add(Add(y, Scale(p, x)), Scale(q, x)), Add(y, Scale(p + q, x));
    forall i | 0 <= i < |x| ensures l[i] == r[i] {
      assert p * x[i] + q * x[i] == (p + q) * x[i];
    }
  }

  ghost predicate Symmetric(a: Mat) {
    Square(a, |a|) && forall i, j :: 0 <= i < |a| && 0 <= j < |a| ==> a[i][j] == a[j][i]
  }

  lemma ArmIsSymmetric(n: nat, x: Vec)
    ensures Symmetric(ArmMatrix(n, x))
  {
    forall i, j | 0 <= i < |x| && 0 <= j < |x| ensures ArmMatrix(n, x)[i][j] == ArmMatrix(n, x)[j][i] {
      ArmMatrixEntries(n, x, i, j);
      ArmMatrixEntries(n, x, j, i);
      assert x[i] * x[j] == x[j] * x[i];
    }
  }

  lemma ArmForm(n: nat, x: Vec, y: Vec)
    requires |x| == |y|
    ensures Dot(y, Apply(ArmMatrix(n, x), y)) == Dot(y, y) + n as real * (Dot(x, y) * Dot(x, y))
  {
    var c := ArmApply(n, x, y);
    DotComm(y, Add(y, Scale(c, x)));
    DotAdd(y, Scale(c, x), y);
    DotScale(c, x, y);
    Regroup(n as real, Dot(x, y));
  }

  /** An arm's A is symmetric and yᵀAy = yᵀy + n (x·y)², so it is positive definite. */
  lemma ArmIsPositiveDefinite(n: nat, x: Vec, y: Vec)
    requires |x| == |y|
    ensures Symmetric(ArmMatrix(n, x))
    ensures Dot(y, Apply(ArmMatrix(n, x), y)) == Dot(y, y) + n as real * (Dot(x, y) * Dot(x, y))
    ensures Dot(y, Apply(ArmMatrix(n, x), y)) >= Dot(y, y) >= 0.0
    ensures y != Zero(|y|) ==> Dot(y, Apply(ArmMatrix(n, x), y)) > 0.0
  {
    ArmIsSymmetric(n, x);
    ArmForm(n, x, y);
    Regroup(n as real, Dot(x, y));
    DotSelf(y);
  }

  lemma Regroup(n: real, s: real)
    requires n >= 0.0
    ensures (n * s) * s == n * (s * s)
    ensures n * (s * s) >= 0.0
  {
    var p := s * s;
    SquareSign(s, p);
    assert n * p >= 0.0;
  }

  /** The squared width of an arm's own context, xᵀA⁻¹x, in closed form. */
  function Width(n: nat, s: real): real
    requires s >= 0.0
  {
    s / (1.0 + n as real * s)
  }

  function ThetaScale(n: nat, r: real, s: real): real
    requires s >= 0.0
  {
    (r / 3.0) / (1.0 + n as real * s)
  }

  /** θ = (rewardSum / 3) · x / (1 + n xᵀx). */
  function Theta(n: nat, r: real, x: Vec): (theta: Vec)
    requires Dot(x, x) >= 0.0
    ensures |theta| == |x|
  {
    Scale(ThetaScale(n, r, Dot(x, x)), x)
  }

  lemma DenominatorPositive(n: nat, s: real)
    requires s >= 0.0
    ensures n as real * s >= 0.0 && 1.0 + n as real * s >= 1.0
  {
  }

  lemma ThetaSolves(n: nat, r: real, x: Vec)
    ensures Dot(x, x) >= 0.0
    ensures Apply(ArmMatrix(n, x), Theta(n, r, x)) == Scale(r / 3.0, x)
  {
    DotSelf(x);
    var s := Dot(x, x);
    var t := ThetaScale(n, r, s);
    DenominatorPositive(n, s);
    var c := ArmApply(n, x, Theta(n, r, x));
    DotComm(x, Scale(t, x));
    DotScale(t, x, x);
    CancelDenominator(t, r / 3.0, n as real, s, 1.0 + n as real * s, t * s, c);
    AddScaled(t, c, x);
  }

  /** A θ = b has the one solution `Theta`. */
  lemma ThetaIsTheSolution(n: nat, r: real, x: Vec, phi: Vec)
    requires |phi| == |x|
    ensures Dot(x, x) >= 0.0
    ensures Apply(ArmMatrix(n, x), phi) == Scale(r / 3.0, x) <==> phi == Theta(n, r, x)
  {
    ThetaSolves(n, r, x);
    if Apply(ArmMatrix(n, x), phi) == Scale(r / 3.0, x) {
      SolutionIsUnique(n, x, phi, Theta(n, r, x));
    }
  }

  lemma CancelDenominator(t: real, b: real, n: real, s: real, m: real, d: real, c: real)
    requires m == 1.0 + n * s && m >= 1.0 && t == b / m
    requires d == t * s && c == n * d
    ensures t + c == b
  {
    assert t * m == b;
    assert t * m == t + t * (n * s);
    assert t * (n * s) == n * (t * s);
  }

  lemma AddScaled(p: real, q: real, x: Vec)
    ensures Add(Scale(p, x), Scale(q, x)) == Scale(p + q, x)
  {
    var l, r := Add(Scale(p, x), Scale(q, x)), Scale(p + q, x);
    forall i | 0 <= i < |x| ensures l[i] == r[i] {
      assert p * x[i] + q * x[i] == (p + q) * x[i];
    }
  }

  /** Positive definiteness makes A injective. */
  lemma SolutionIsUnique(n: nat, x: Vec, u: Vec, v: Vec)
    requires |x| == |u| == |v|
    requires Apply(ArmMatrix(n, x), u) == Apply(ArmMatrix(n, x), v)
    ensures u == v
  {
    var a := ArmMatrix(n, x);
    var z := Add(u, Scale(-1.0, v));
    forall i | 0 <= i < |x| ensures Apply(a, z)[i] == 0.0 {
      DotComm(a[i], z);
      DotAdd(u, Scale(-1.0, v), a[i]);
      DotScale(-1.0, v, a[i]);
      DotComm(a[i], u);
      DotComm(a[i], v);
      assert Apply(a, u)[i] == Apply(a, v)[i];
    }
    assert Apply(a, z) == Zero(|x|);
    ZeroDot(z);
    ArmIsPositiveDefinite(n, x, z);
    assert z == Zero(|z|);
    forall i | 0 <= i < |x| ensures u[i] == v[i] {
      assert z[i] == 0.0;
      assert Scale(-1.0, v)[i] == -v[i];
    }
  }

  lemma ZeroDot(z: Vec)
    ensures Dot(z, Zero(|z|)) == 0.0
  {
    assert Scale(0.0, z) == Zero(|z|);
    DotScale(0.0, z, z);
    DotComm(z, Zero(|z|));
  }

  lemma ThetaDot(n: nat, r: real, x: Vec)
    ensures Dot(x, x) >= 0.0
    ensures Dot(Theta(n, r, x), x) == (r / 3.0) * Width(n, Dot(x, x))
  {
    DotSelf(x);
    var s := Dot(x, x);
    DenominatorPositive(n, s);
    DotScale(ThetaScale(n, r, s), x, x);
    ScaleQuotient(r / 3.0, 1.0 + n as real * s, s);
  }

  /** A⁻¹x = x / (1 + n xᵀx), so `Width` is xᵀA⁻¹x. */
  lemma WidthIsQuadraticForm(n: nat, x: Vec)
    ensures Dot(x, x) >= 0.0
    ensures Apply(ArmMatrix(n, x), Theta(n, 3.0, x)) == x
    ensures Dot(x, Theta(n, 3.0, x)) == Width(n, Dot(x, x))
  {
    ThetaSolves(n, 3.0, x);
    assert Scale(3.0 / 3.0, x) == x;
    ThetaDot(n, 3.0, x);
    DotComm(x, Theta(n, 3.0, x));
  }

  /** With rewards of at most 3 per impression the learned score θᵀx stays in [0, 1). */
  lemma ScoreRange(n: nat, r: nat, x: Vec)
    requires r <= 3 * n
    ensures Dot(x, x) >= 0.0
    ensures 0.0 <= Dot(Theta(n, r as real, x), x) < 1.0
  {
    ThetaDot(n, r as real, x);
    DenominatorPositive(n, Dot(x, x));
    var s := Dot(x, x);
    QuotientTimes(s, 1.0 + n as real * s);
    ScoreBelowOne(r as real / 3.0, n as real, s, 1.0 + n as real * s, Width(n, s), Dot(Theta(n, r as real, x), x));
  }

  lemma QuotientTimes(s: real, m: real)
    requires s >= 0.0 && m >= 1.0
    ensures (s / m) * m == s && s / m >= 0.0
  {
  }

  lemma ScaleQuotient(b: real, m: real, s: real)
    requires m >= 1.0
    ensures (b / m) * s == b * (s / m)
  {
    assert ((b / m) * s) * m == b * s;
    assert (b * (s / m)) * m == b * s;
  }

  lemma ScoreBelowOne(b: real, n: real, s: real, m: real, w: real, score: real)
    requires 0.0 <= b <= n && s >= 0.0 && m == 1.0 + n * s && m >= 1.0 && w >= 0.0 && w * m == s
    requires score == b * w
    ensures 0.0 <= score < 1.0
  {
    var p := n * w;
    ProductMonotone(b, n, w, score, p);
    assert p * m == n * (w * m);
    assert (1.0 - p) * m == m - p * m;
    FactorSign(1.0 - p, m);
  }

  /** Each further impression strictly shrinks the exploration width of a nonzero context. */
  lemma WidthShrinks(n: nat, x: Vec)
    requires x != Zero(|x|)
    ensures Dot(x, x) > 0.0
    ensures 0.0 < Width(n + 1, Dot(x, x)) < Width(n, Dot(x, x))
  {
    DotSelf(x);
    var s := Dot(x, x);
    var m := 1.0 + n as real * s;
    DenominatorPositive(n, s);
    assert 1.0 + (n + 1) as real * s == m + s;
    QuotientShrinks(s, m);
  }

  lemma QuotientShrinks(s: real, m: real)
    requires s > 0.0 && m >= 1.0
    ensures 0.0 < s / (m + s) < s / m
  {
    var p, q := s / (m + s), s / m;
    assert p * (m + s) == s && q * m == s;
    assert p > 0.0;
    assert p * (m + s) == p * m + p * s;
    assert p * s > 0.0;
    assert p * m < q * m;
  }

  /** Replaying the same impressions in another order gives every arm the same totals. */
  lemma {:induction false} OrderDoesNotMatter(events: seq<Event>, other: seq<Event>, id: int)
    requires multiset(events) == multiset(other)
    ensures Impressions(events, |events|, id) == Impressions(other, |other|, id)
    ensures Rewards(events, |events|, id) == Rewards(other, |other|, id)
    decreases |events|
  {
    assert |multiset(events)| == |events| && |multiset(other)| == |other|;
    if |events| > 0 {
      var n := |events| - 1;
      var j := MatchLast(events, other);
      OrderDoesNotMatter(events[..n], other[..j] + other[j + 1..], id);
      TotalsOfPrefix(events, events[..n], n, id);
      TotalsWithout(other, j, |other|, id);
    }
  }

  lemma {:induction false} TotalsOfPrefix(events: seq<Event>, other: seq<Event>, k: nat, id: int)
    requires k <= |events| && k <= |other| && events[..k] == other[..k]
    ensures Impressions(events, k, id) == Impressions(other, k, id)
    ensures Rewards(events, k, id) == Rewards(other, k, id)
  {
    if k > 0 {
      assert events[..k][k - 1] == other[..k][k - 1];
      assert events[..k - 1] == events[..k][..k - 1] == other[..k - 1];
      TotalsOfPrefix(events, other, k - 1, id);
    }
  }

  lemma {:induction false} TotalsWithout(events: seq<Event>, j: nat, k: nat, id: int)
    requires j < k <= |events|
    ensures var rest := events[..j] + events[j + 1..]; var hit := events[j].bizId == id;
            && Impressions(events, k, id) == Impressions(rest, k - 1, id) + (if hit then 1 else 0)
            && Rewards(events, k, id) == Rewards(rest, k - 1, id) + (if hit then events[j].grade else 0)
  {
    var rest := events[..j] + events[j + 1..];
    if k == j + 1 {
      assert events[..j] == rest[..j];
      TotalsOfPrefix(events, rest, j, id);
    } else {
      TotalsWithout(events, j, k - 1, id);
      assert rest[k - 2] == events[k - 1];
    }
  }

  /** Grades of at most 3 keep the reward sum within three times the impressions. */
  lemma {:induction false} RewardsBounded(events: seq<Event>, k: nat, id: int)
    requires k <= |events| && forall e :: e in events ==> e.grade <= 3
    ensures Rewards(events, k, id) <= 3 * Impressions(events, k, id)
  {
    if k > 0 {
      RewardsBounded(events, k - 1, id);
      assert events[k - 1] in events;
    }
  }

  // ---------- the stored rows ----------

  datatype ArmRow = ArmRow(dim: nat, aMatrix: Mat, bVector: Vec, impressionCount: nat, rewardSum: real)

  datatype TrainResult = NoEvents | Trained(arms: nat)

  ghost function ArmRowOf(events: seq<Event>, ctx: map<int, Context>, d: nat, id: int): ArmRow
    requires id in ctx
  {
    var x, n, r := ContextVector(ctx[id], d), Impressions(events, |events|, id), Rewards(events, |events|, id);
    ArmRow(d, ArmMatrix(n, x), Scale(r as real / 3.0, x), n, r as real)
  }

  ghost function Overwritten(rows: map<int, ArmRow>, events: seq<Event>, ctx: map<int, Context>, d: nat, ids: set<int>): map<int, ArmRow> {
    rows + map id | id in ids && id in ctx :: ArmRowOf(events, ctx, d, id)
  }

  lemma OverwriteOneMore(rows: map<int, ArmRow>, events: seq<Event>, ctx: map<int, Context>, d: nat, ids: set<int>, id: int)
    requires id in ctx
    ensures Overwritten(rows, events, ctx, d, ids + {id}) == Overwritten(rows, events, ctx, d, ids)[id := ArmRowOf(events, ctx, d, id)]
  {
  }

  /** The table after training: a fresh row for every arm with events, all other rows as they were. */
  ghost function Retrained(rows: map<int, ArmRow>, events: seq<Event>, ctx: map<int, Context>, d: nat): map<int, ArmRow> {
    Overwritten(rows, events, ctx, d, Arms(events, |events|, ctx))
  }

  /** The payload written for one arm. */
  function RowOf(t: Tallies, d: nat, id: int): ArmRow
    requires id in t.a && id in t.b && id in t.counts && id in t.rewards
  {
    ArmRow(d, t.a[id], t.b[id], t.counts[id], t.rewards[id])
  }

  lemma RowFromTallies(events: seq<Event>, ctx: map<int, Context>, d: nat, t: Tallies, id: int)
    requires Replayed(events, |events|, ctx, d, t) && id in t.a
    ensures id in ctx && id in t.b && id in t.counts && id in t.rewards
    ensures RowOf(t, d, id) == ArmRowOf(events, ctx, d, id)
  {
    assert ArmReplayed(events, |events|, ctx, d, t, id);
  }

  class ArmTable {
    var rows: map<int, ArmRow>

    /** `train`: `NoEvents` stands for the exit without any impression; the dimension is the configured
        one, but at least one. */
    method Train(events: seq<Event>, ctx: map<int, Context>, configured: int, dryRun: bool) returns (result: TrainResult)
      modifies this
      ensures |events| == 0 ==> result == NoEvents && rows == old(rows)
      ensures |events| > 0 ==> result == TrainResult.Trained(|Arms(events, |events|, ctx)|)
      ensures |events| > 0 && dryRun ==> rows == old(rows)
      ensures |events| > 0 && !dryRun ==> rows == Retrained(old(rows), events, ctx, FeatureDim(configured))
    {
      var d := FeatureDim(configured);
      if |events| == 0 {
        return NoEvents;
      }
      var t := Replay(events, ctx, d);
      if dryRun {
        return TrainResult.Trained(|t.counts.Keys|);
      }
      Store(t, d, events, ctx);
      result := TrainResult.Trained(|t.a.Keys|);
    }

    /** Overwrites or inserts the row of every replayed arm, in whatever order the arms come. */
    method Store(t: Tallies, d: nat, ghost events: seq<Event>, ghost ctx: map<int, Context>)
      requires Replayed(events, |events|, ctx, d, t)
      modifies this
      ensures rows == Retrained(old(rows), events, ctx, d)
    {
      var todo := t.a.Keys;
      ghost var done: set<int> := {};
      while todo != {}
        invariant todo + done == t.a.Keys
        invariant rows == Overwritten(old(rows), events, ctx, d, done)
        decreases todo
      {
        var id :| id in todo;
        RowFromTallies(events, ctx, d, t, id);
        OverwriteOneMore(old(rows), events, ctx, d, done, id);
        rows := rows[id := RowOf(t, d, id)];
        todo, done := todo - {id}, done + {id};
      }
      assert done == t.a.Keys;
    }
  }

  lemma ArmsOfPermuted(events: seq<Event>, other: seq<Event>, ctx: map<int, Context>)
    requires multiset(events) == multiset(other)
    ensures Arms(events, |events|, ctx) == Arms(other, |other|, ctx)
  {
    forall i | 0 <= i < |events| && events[i].bizId in ctx ensures events[i].bizId in Arms(other, |other|, ctx) {
      assert events[i] in multiset(other);
      var j :| 0 <= j < |other| && other[j] == events[i];
    }
    forall i | 0 <= i < |other| && other[i].bizId in ctx ensures other[i].bizId in Arms(events, |events|, ctx) {
      assert other[i] in multiset(events);
      var j :| 0 <= j < |events| && events[j] == other[i];
    }
  }

  /** The stored rows do not depend on the order in which the impressions are read. */
  lemma TrainingIgnoresOrder(
    rows: map<int, ArmRow>, events: seq<Event>, other: seq<Event>, ctx: map<int, Context>, d: nat)
    requires multiset(events) == multiset(other)
    ensures Retrained(rows, events, ctx, d) == Retrained(rows, other, ctx, d)
  {
    ArmsOfPermuted(events, other, ctx);
    var arms := Arms(events, |events|, ctx);
    forall id | id in arms ensures ArmRowOf(events, ctx, d, id) == ArmRowOf(other, ctx, d, id) {
      OrderDoesNotMatter(events, other, id);
    }
  }

  /** Rows are overwritten, not accumulated: whatever was trained before, on whatever events, the
      arms of this run come out the same, and training twice changes nothing more. */
  lemma TrainingOverwrites(
    rows: map<int, ArmRow>, before: map<int, ArmRow>, events: seq<Event>, ctx: map<int, Context>, d: nat)
    ensures forall id :: id in Arms(events, |events|, ctx) ==>
              Retrained(rows, events, ctx, d)[id] == Retrained(before, events, ctx, d)[id]
    ensures Retrained(Retrained(rows, events, ctx, d), events, ctx, d) == Retrained(rows, events, ctx, d)
  {
  }

  /** A stored arm is usable for online scoring: it has been shown, its reward sum is within three
      per impression, A is symmetric and positive definite, and its context is not zero. */
  lemma StoredArmIsSound(events: seq<Event>, ctx: map<int, Context>, d: nat, id: int, y: Vec)
    requires d >= 1 && id in Arms(events, |events|, ctx) && |y| == d
    requires forall e :: e in events ==> e.grade <= 3
    ensures var row, x := ArmRowOf(events, ctx, d, id), ContextVector(ctx[id], d);
            && row.impressionCount > 0 && 0.0 <= row.rewardSum <= 3.0 * row.impressionCount as real
            && Square(row.aMatrix, d) && Symmetric(row.aMatrix)
            && (y != Zero(d) ==> Dot(y, Apply(row.aMatrix, y)) > 0.0)
            && Dot(x, x) >= 1.0
  {
    var x, n := ContextVector(ctx[id], d), Impressions(events, |events|, id);
    ImpressionsInArms(events, |events|, ctx, id);
    RewardsBounded(events, |events|, id);
    ContextIsNonzero(ctx[id], d);
    ArmIsPositiveDefinite(n, x, y);
  }

  /** The stored A and b have exactly one θ with A θ = b, and it scores the arm's own context in [0, 1). */
  lemma StoredArmSolution(events: seq<Event>, ctx: map<int, Context>, d: nat, id: int, phi: Vec)
    requires d >= 1 && id in Arms(events, |events|, ctx) && |phi| == d
    requires forall e :: e in events ==> e.grade <= 3
    ensures var row, x := ArmRowOf(events, ctx, d, id), ContextVector(ctx[id], d);
            && Dot(x, x) >= 0.0 && Square(row.aMatrix, d)
            && (Apply(row.aMatrix, phi) == row.bVector <==> phi == Theta(row.impressionCount, row.rewardSum, x))
            && 0.0 <= Dot(Theta(row.impressionCount, row.rewardSum, x), x) < 1.0
  {
    var x, n, r := ContextVector(ctx[id], d), Impressions(events, |events|, id), Rewards(events, |events|, id);
    RewardsBounded(events, |events|, id);
    ThetaIsTheSolution(n, r as real, x, phi);
    ScoreRange(n, r, x);
  }
}
