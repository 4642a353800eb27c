/**
 * The chief justice: opinions are grouped by criterion, each group is
 * resolved by fixed rules into a score and a dissent summary, and the
 * report's decisions (overall score, score badges, remediation plan) are
 * derived from the verdicts. The markdown text the source lays out around
 * these decisions is not modelled; the node returns them as a `Report`.
 */
module Justice {
  import opened Wrappers
  import opened Text
  import opened Dicts
  import SM = StateModels

  type Opinion = SM.JudicialOpinion

  // ---------------------------------------------------------------------
  // Grouping by criterion
  // ---------------------------------------------------------------------

  /** The opinions on criterion `c`, in their original order. */
  function OfCriterion(ops: seq<Opinion>, c: string): (r: seq<Opinion>)
    ensures |r| <= |ops|
    ensures forall o :: o in r ==> o in ops && o.criterionId == c
  {
    if ops == [] then []
    else
      var last := ops[|ops| - 1];
      OfCriterion(ops[..|ops| - 1], c) + (if last.criterionId == c then [last] else [])
  }

  /** An opinion is in the group of its own criterion. */
  lemma {:induction false} OfCriterionHas(ops: seq<Opinion>, k: nat)
    requires k < |ops|
    ensures ops[k] in OfCriterion(ops, ops[k].criterionId)
  {
    var n := |ops| - 1;
    if k < n {
      OfCriterionHas(ops[..n], k);
      assert ops[..n][k] == ops[k];
    }
  }

  /** `defaultdict(list)` filled with `opinions_by_criterion[op.criterion_id].append(op)`. */
  function Grouped(ops: seq<Opinion>): (g: Dict<seq<Opinion>>)
  {
    if ops == [] then []
    else
      var g := Grouped(ops[..|ops| - 1]);
      var o := ops[|ops| - 1];
      Put(g, o.criterionId, Get(g, o.criterionId).GetOr([]) + [o])
  }

  /** The groups have distinct criteria. */
  lemma {:induction false} GroupedDistinct(ops: seq<Opinion>)
    ensures DistinctKeys(Grouped(ops))
  {
    if ops != [] {
      var init := ops[..|ops| - 1];
      var o := ops[|ops| - 1];
      GroupedDistinct(init);
      PutDistinct(Grouped(init), o.criterionId, Get(Grouped(init), o.criterionId).GetOr([]) + [o]);
    }
  }

  /**
   * The group of `c` exists exactly when some opinion is on `c`, and it holds
   * exactly the opinions on `c` in their original order.
   */
  lemma {:induction false} GroupedAt(ops: seq<Opinion>, c: string)
    ensures OfCriterion(ops, c) == [] ==> Get(Grouped(ops), c) == None
    ensures OfCriterion(ops, c) != [] ==> Get(Grouped(ops), c) == Some(OfCriterion(ops, c))
  {
    if ops != [] {
      var init := ops[..|ops| - 1];
      var o := ops[|ops| - 1];
      var g := Grouped(init);
      var v := Get(g, o.criterionId).GetOr([]) + [o];
      assert Grouped(ops) == Put(g, o.criterionId, v);
      GroupedAt(init, c);
      if o.criterionId == c {
        assert OfCriterion(ops, c) == OfCriterion(init, c) + [o];
        assert Get(g, c).GetOr([]) == OfCriterion(init, c);
      } else {
        assert OfCriterion(ops, c) == OfCriterion(init, c);
      }
    }
  }

  /** Every opinion's criterion has a group. */
  lemma OccursGroupedKey(ops: seq<Opinion>, i: nat)
    requires i < |ops|
    ensures ops[i].criterionId in Keys(Grouped(ops))
  {
    OfCriterionHas(ops, i);
    GroupedAt(ops, ops[i].criterionId);
  }

  /** The position of the first opinion on `c`, or `|ops|` when there is none. */
  function FirstIndex(ops: seq<Opinion>, c: string): (r: nat)
    ensures r <= |ops|
    ensures r < |ops| ==> ops[r].criterionId == c
    ensures forall j :: 0 <= j < r ==> ops[j].criterionId != c
  {
    if ops == [] then 0 else if ops[0].criterionId == c then 0 else 1 + FirstIndex(ops[1..], c)
  }

  /** One more opinion at the end moves no first occurrence that was already there. */
  lemma FirstIndexSnoc(ops: seq<Opinion>, o: Opinion, c: string)
    ensures FirstIndex(ops, c) < |ops| ==> FirstIndex(ops + [o], c) == FirstIndex(ops, c)
    ensures FirstIndex(ops, c) == |ops| && o.criterionId == c ==> FirstIndex(ops + [o], c) == |ops|
  {
    var xs := ops + [o];
    var r, r' := FirstIndex(ops, c), FirstIndex(xs, c);
    assert forall j :: 0 <= j < |ops| ==> xs[j] == ops[j];
    if r < |ops| {
      assert xs[r].criterionId == c;
      assert !(r' < r) && !(r < r');
    } else if o.criterionId == c {
      assert xs[|ops|].criterionId == c;
      assert !(r' < |ops|);
    }
  }

  /** One more opinion keeps the criteria listed so far, and appends its own if it is new. */
  lemma GroupedKeyListStep(ops: seq<Opinion>, o: Opinion)
    ensures var ks, ks' := KeyList(Grouped(ops)), KeyList(Grouped(ops + [o]));
            (o.criterionId in Keys(Grouped(ops)) ==> ks' == ks)
            && (o.criterionId !in Keys(Grouped(ops)) ==> ks' == ks + [o.criterionId])
  {
    var xs := ops + [o];
    assert xs[..|xs| - 1] == ops;
    var g0 := Grouped(ops);
    var v := Get(g0, o.criterionId).GetOr([]) + [o];
    assert Grouped(xs) == Put(g0, o.criterionId, v);
    KeyListPut(g0, o.criterionId, v);
  }

  /** Criteria `ks` that all occur in `ops`, listed in the order they first occur. */
  predicate InFirstOccurrenceOrder(ops: seq<Opinion>, ks: seq<string>) {
    (forall a :: 0 <= a < |ks| ==> FirstIndex(ops, ks[a]) < |ops|)
    && (forall a, b :: 0 <= a < b < |ks| ==> FirstIndex(ops, ks[a]) < FirstIndex(ops, ks[b]))
  }

  /** One more opinion keeps the order, whether it adds no criterion or a new one at the end. */
  lemma OrderStep(ops: seq<Opinion>, o: Opinion, ks: seq<string>, ks': seq<string>)
    requires InFirstOccurrenceOrder(ops, ks)
    requires ks' == ks || (ks' == ks + [o.criterionId] && FirstIndex(ops, o.criterionId) == |ops|)
    ensures InFirstOccurrenceOrder(ops + [o], ks')
  {
    forall a | 0 <= a < |ks| ensures FirstIndex(ops + [o], ks[a]) == FirstIndex(ops, ks[a]) {
      FirstIndexSnoc(ops, o, ks[a]);
    }
    if ks' != ks {
      FirstIndexSnoc(ops, o, o.criterionId);
      assert forall a :: 0 <= a < |ks| ==> ks'[a] == ks[a];
    }
  }

  /** Like a `defaultdict`, the groups come in the order their criteria first occur. */
  lemma {:induction false} GroupedFirstOccurrence(ops: seq<Opinion>)
    ensures InFirstOccurrenceOrder(ops, KeyList(Grouped(ops)))
  {
    if ops != [] {
      var init, o := ops[..|ops| - 1], ops[|ops| - 1];
      assert ops == init + [o];
      GroupedFirstOccurrence(init);
      GroupedKeyListStep(init, o);
      var c := o.criterionId;
      if c !in Keys(Grouped(init)) {
        forall j | 0 <= j < |init| ensures init[j].criterionId != c {
          OccursGroupedKey(init, j);
        }
        assert FirstIndex(init, c) == |init|;
      }
      OrderStep(init, o, KeyList(Grouped(init)), KeyList(Grouped(init + [o])));
    }
  }

  /** The grouping loop of `chief_justice_node`. */
  method GroupByCriterion(ops: seq<Opinion>) returns (groups: Dict<seq<Opinion>>)
    ensures groups == Grouped(ops)
  {
    groups := [];
    for i := 0 to |ops|
      invariant groups == Grouped(ops[..i])
    {
      assert ops[..i + 1][..i] == ops[..i];
      var c := ops[i].criterionId;
      groups := Put(groups, c, Get(groups, c).GetOr([]) + [ops[i]]);
    }
    assert ops[..|ops|] == ops;
  }

  // ---------------------------------------------------------------------
  // Resolving one criterion
  // ---------------------------------------------------------------------

  /** The score `{op.judge: op.score for op in opinions}` keeps for `p`: the last one. */
  function LastScore(ops: seq<Opinion>, p: SM.Persona): (r: Option<int>)
  {
    if ops == [] then None
    else if ops[|ops| - 1].judge == p then Some(ops[|ops| - 1].score)
    else LastScore(ops[..|ops| - 1], p)
  }

  /** `scores_by_judge.get(p, 3)`. */
  function ScoreOf(ops: seq<Opinion>, p: SM.Persona): int {
    LastScore(ops, p).GetOr(3)
  }

  /** A persona without an opinion scores 3; otherwise its score is that of its last opinion. */
  lemma {:induction false} ScoreOfIsLast(ops: seq<Opinion>, p: SM.Persona)
    ensures (forall k :: 0 <= k < |ops| ==> ops[k].judge != p) ==> ScoreOf(ops, p) == 3
    ensures (exists k :: 0 <= k < |ops| && ops[k].judge == p) ==>
              exists k :: 0 <= k < |ops| && ops[k].judge == p && ScoreOf(ops, p) == ops[k].score
                          && forall j :: k < j < |ops| ==> ops[j].judge != p
  {
    if ops != [] {
      var n := |ops| - 1;
      ScoreOfIsLast(ops[..n], p);
      if ops[n].judge != p {
        assert forall k :: 0 <= k < n ==> ops[..n][k] == ops[k];
        if exists k :: 0 <= k < |ops| && ops[k].judge == p {
          var k :| 0 <= k < |ops| && ops[k].judge == p;
          assert ops[..n][k] == ops[k];
        }
      }
    }
  }

  /** `next((op for op in opinions if op.judge == p), None)`. */
  function FirstBy(ops: seq<Opinion>, p: SM.Persona): (r: Option<Opinion>)
    ensures r.Some? ==> r.value in ops && r.value.judge == p
    ensures r.None? <==> forall k :: 0 <= k < |ops| ==> ops[k].judge != p
    ensures r.Some? ==> exists k :: 0 <= k < |ops| && ops[k] == r.value && forall j :: 0 <= j < k ==> ops[j].judge != p
  {
    if ops == [] then None
    else if ops[0].judge == p then Some(ops[0])
    else
      var r := FirstBy(ops[1..], p);
      assert forall k :: 1 <= k < |ops| ==> ops[k] == ops[1..][k - 1];
      if r.Some? then
        var k :| 0 <= k < |ops[1..]| && ops[1..][k] == r.value && forall j :: 0 <= j < k ==> ops[1..][j].judge != p;
        assert ops[k + 1] == r.value && forall j :: 0 <= j < k + 1 ==> ops[j].judge != p;
        r
      else r
  }

  const SecurityKeywords: seq<string> := ["security", "os.system", "injection", "sanitization"]

  /** The security override: a Prosecutor spoke, scored at most 2, and its first argument names a security keyword. */
  predicate SecurityOverride(ops: seq<Opinion>) {
    var first := FirstBy(ops, SM.Prosecutor);
    first.Some? && ScoreOf(ops, SM.Prosecutor) <= 2 && ContainsAny(Lower(first.value.argument), SecurityKeywords)
  }

  /**
   * The override in terms of positions: when the Prosecutor first speaks at
   * `i` and last speaks at `j`, it applies iff the score at `j` is at most 2
   * and the argument at `i` names a security keyword.
   */
  lemma SecurityOverrideReads(ops: seq<Opinion>, i: nat, j: nat)
    requires i < |ops| && ops[i].judge == SM.Prosecutor && forall k :: 0 <= k < i ==> ops[k].judge != SM.Prosecutor
    requires j < |ops| && ops[j].judge == SM.Prosecutor && forall k :: j < k < |ops| ==> ops[k].judge != SM.Prosecutor
    ensures SecurityOverride(ops) <==>
              ops[j].score <= 2 && ContainsAny(Lower(ops[i].argument), SecurityKeywords)
  {
    var first := FirstBy(ops, SM.Prosecutor);
    assert first.Some?;
    var f :| 0 <= f < |ops| && ops[f] == first.value && forall k :: 0 <= k < f ==> ops[k].judge != SM.Prosecutor;
    assert f == i;
    ScoreOfIsLast(ops, SM.Prosecutor);
    var l :| 0 <= l < |ops| && ops[l].judge == SM.Prosecutor && ScoreOf(ops, SM.Prosecutor) == ops[l].score
             && forall k :: l < k < |ops| ==> ops[k].judge != SM.Prosecutor;
    assert l == j;
  }

  /** Without a Prosecutor opinion the override never applies. */
  lemma NoProsecutorNoOverride(ops: seq<Opinion>)
    requires forall k :: 0 <= k < |ops| ==> ops[k].judge != SM.Prosecutor
    ensures !SecurityOverride(ops)
  {
  }

  function Max3(a: int, b: int, c: int): (r: int)
    ensures r >= a && r >= b && r >= c && (r == a || r == b || r == c)
  {
    if a >= b && a >= c then a else if b >= c then b else c
  }

  function Min3(a: int, b: int, c: int): (r: int)
    ensures r <= a && r <= b && r <= c && (r == a || r == b || r == c)
  {
    if a <= b && a <= c then a else if b <= c then b else c
  }

  /** Python's `round(s / 4)`: to the nearest integer, a tie to the even one. */
  function RoundQuarter(s: int): int {
    var q := s / 4;
    var m := s % 4;
    if m < 2 then q else if m > 2 then q + 1 else if q % 2 == 0 then q else q + 1
  }

  /** Rounding half to even, stated independently: nearest, and even on a tie. */
  predicate IsRoundHalfEven(s: int, r: int) {
    -2 <= 4 * r - s <= 2 && ((4 * r - s == 2 || 4 * r - s == -2) ==> r % 2 == 0)
  }

  /** `RoundQuarter` rounds half to even, and it is the only integer that does. */
  lemma RoundQuarterIsRoundHalfEven(s: int, r: int)
    ensures IsRoundHalfEven(s, RoundQuarter(s))
    ensures IsRoundHalfEven(s, r) ==> r == RoundQuarter(s)
  {
    var q := s / 4;
    assert s == 4 * q + s % 4;
  }

  /** The ties: sums 6, 10, 14 and 18 round to 2, 2, 4 and 4. */
  lemma RoundQuarterTies()
    ensures RoundQuarter(6) == 2 && RoundQuarter(10) == 2 && RoundQuarter(14) == 4 && RoundQuarter(18) == 4
  {
  }

  /** `max(1, min(5, x))`. */
  function Clamp(x: int): (r: int)
    ensures 1 <= r <= 5
    ensures 1 <= x <= 5 ==> r == x
  {
    if x < 1 then 1 else if x > 5 then 5 else x
  }

  /** A criterion's final score and its dissent summary. */
  datatype Ruling = Ruling(score: int, dissent: string)

  const OverrideDissent := "Security override applied. Prosecutor flagged security issues, capping score at 3."

  function DisagreementDissent(v: int, p: int, d: int, t: int): string {
    "Significant disagreement (variance: " + IntToString(v) + "). Prosecutor: " + IntToString(p)
    + ", Defense: " + IntToString(d) + ", TechLead: " + IntToString(t)
    + ". Tech Lead's practical assessment weighted double in synthesis."
  }

  function ConsensusDissent(lo: int, hi: int): string {
    "Judges reached consensus. Scores ranged from " + IntToString(lo) + " to " + IntToString(hi) + "."
  }

  /** `_synthesize_criterion`, without the rule texts it never reads. */
  function Synthesize(ops: seq<Opinion>): (v: Ruling)
    ensures ops == [] ==> v == Ruling(1, "No opinions provided")
    ensures ops != [] && !SecurityOverride(ops) ==> 1 <= v.score <= 5
  {
    if ops == [] then Ruling(1, "No opinions provided")
    else
      var p := ScoreOf(ops, SM.Prosecutor);
      var d := ScoreOf(ops, SM.Defense);
      var t := ScoreOf(ops, SM.TechLead);
      if SecurityOverride(ops) then
        var hi := Max3(p, d, t);
        Ruling(if hi < 3 then hi else 3, OverrideDissent)
      else
        var score := Clamp(RoundQuarter(p + d + 2 * t));
        var variance := Max3(p, d, t) - Min3(p, d, t);
        if variance > 2 then Ruling(score, DisagreementDissent(variance, p, d, t))
        else Ruling(score, ConsensusDissent(Min3(p, d, t), Max3(p, d, t)))
  }

  /** Under the security override the score is the highest judge score capped at 3. */
  lemma SynthesizeOverride(ops: seq<Opinion>)
    requires ops != [] && SecurityOverride(ops)
    ensures var hi := Max3(ScoreOf(ops, SM.Prosecutor), ScoreOf(ops, SM.Defense), ScoreOf(ops, SM.TechLead));
            Synthesize(ops).score <= 3 && Synthesize(ops).score <= hi
            && (Synthesize(ops).score == 3 || Synthesize(ops).score == hi)
    ensures Synthesize(ops).dissent == OverrideDissent
  {
  }

  /**
   * Otherwise the score is the weighted mean (p + d + 2t) / 4 rounded half
   * to even and clamped to [1, 5], and the dissent reports the spread of the
   * three scores.
   */
  lemma SynthesizeWeighted(ops: seq<Opinion>)
    requires ops != [] && !SecurityOverride(ops)
    ensures var s := ScoreOf(ops, SM.Prosecutor) + ScoreOf(ops, SM.Defense) + 2 * ScoreOf(ops, SM.TechLead);
            IsRoundHalfEven(s, RoundQuarter(s)) && Synthesize(ops).score == Clamp(RoundQuarter(s))
  {
    var s := ScoreOf(ops, SM.Prosecutor) + ScoreOf(ops, SM.Defense) + 2 * ScoreOf(ops, SM.TechLead);
    RoundQuarterIsRoundHalfEven(s, 0);
  }

  /** The dissent: a disagreement report when the scores spread by more than 2, a consensus note otherwise. */
  lemma SynthesizeDissent(ops: seq<Opinion>)
    requires ops != [] && !SecurityOverride(ops)
    ensures var p := ScoreOf(ops, SM.Prosecutor);
            var d := ScoreOf(ops, SM.Defense);
            var t := ScoreOf(ops, SM.TechLead);
            var hi := Max3(p, d, t);
            var lo := Min3(p, d, t);
            (hi - lo > 2 ==> Synthesize(ops).dissent == DisagreementDissent(hi - lo, p, d, t))
            && (hi - lo <= 2 ==> Synthesize(ops).dissent == ConsensusDissent(lo, hi))
  {
  }

  /** Every opinion in `ops` has a score in [1, 5]. */
  predicate AllValid(ops: seq<Opinion>) {
    forall o :: o in ops ==> SM.ValidOpinion(o)
  }

  lemma {:induction false} ScoreOfValid(ops: seq<Opinion>, p: SM.Persona)
    requires AllValid(ops)
    ensures 1 <= ScoreOf(ops, p) <= 5
  {
    if ops != [] {
      var n := |ops| - 1;
      if ops[n].judge == p {
        assert ops[n] in ops;
      } else {
        assert forall o :: o in ops[..n] ==> o in ops;
        ScoreOfValid(ops[..n], p);
      }
    }
  }

  /** With valid opinions the final score is in [1, 5], and at most 3 under the security override. */
  lemma SynthesizeBounds(ops: seq<Opinion>)
    requires AllValid(ops)
    ensures 1 <= Synthesize(ops).score <= 5
    ensures ops != [] && SecurityOverride(ops) ==> Synthesize(ops).score <= 3
  {
    ScoreOfValid(ops, SM.Prosecutor);
    ScoreOfValid(ops, SM.Defense);
    ScoreOfValid(ops, SM.TechLead);
  }

  /** With one opinion from each judge, each judge's score is its own. */
  lemma ScoreOfThree(x: Opinion, y: Opinion, z: Opinion)
    requires x.judge == SM.Prosecutor && y.judge == SM.Defense && z.judge == SM.TechLead
    ensures ScoreOf([x, y, z], SM.Prosecutor) == x.score
    ensures ScoreOf([x, y, z], SM.Defense) == y.score
    ensures ScoreOf([x, y, z], SM.TechLead) == z.score
    ensures FirstBy([x, y, z], SM.Prosecutor) == Some(x)
  {
    assert [x, y, z][..2] == [x, y];
    assert [x, y][..1] == [x];
    assert LastScore([x, y, z], SM.Prosecutor) == LastScore([x, y], SM.Prosecutor) == LastScore([x], SM.Prosecutor);
    assert LastScore([x, y, z], SM.Defense) == LastScore([x, y], SM.Defense);
  }

  /** Three judges who agree closely: (4 + 3 + 2 * 5) / 4 = 4.25 rounds to 4, (2 + 2 + 2 * 3) / 4 = 2.5 to 2. */
  lemma SynthesizeExamples(c: string)
    ensures Synthesize([SM.JudicialOpinion(SM.Prosecutor, c, 4, "", []),
                        SM.JudicialOpinion(SM.Defense, c, 3, "", []),
                        SM.JudicialOpinion(SM.TechLead, c, 5, "", [])]).score == 4
    ensures Synthesize([SM.JudicialOpinion(SM.Prosecutor, c, 2, "", []),
                        SM.JudicialOpinion(SM.Defense, c, 2, "", []),
                        SM.JudicialOpinion(SM.TechLead, c, 3, "", [])]).score == 2
  {
    var a := [SM.JudicialOpinion(SM.Prosecutor, c, 4, "", []),
              SM.JudicialOpinion(SM.Defense, c, 3, "", []),
              SM.JudicialOpinion(SM.TechLead, c, 5, "", [])];
    var b := [SM.JudicialOpinion(SM.Prosecutor, c, 2, "", []),
              SM.JudicialOpinion(SM.Defense, c, 2, "", []),
              SM.JudicialOpinion(SM.TechLead, c, 3, "", [])];
    assert !Contains(Lower(""), SecurityKeywords[0]);
    assert !Contains(Lower(""), SecurityKeywords[1]);
    assert !Contains(Lower(""), SecurityKeywords[2]);
    assert !Contains(Lower(""), SecurityKeywords[3]);
    ScoreOfThree(a[0], a[1], a[2]);
    ScoreOfThree(b[0], b[1], b[2]);
    assert a == [a[0], a[1], a[2]] && b == [b[0], b[1], b[2]];
    assert !SecurityOverride(a) && !SecurityOverride(b);
  }

  /**
   * The override reads the argument of the Prosecutor's first opinion but
   * the score of its last: a first opinion that names a security flaw does
   * not cap the score when a later Prosecutor opinion scores above 2.
   */
  lemma OverrideUsesLastProsecutorScore(first: Opinion, later: Opinion)
    requires first.judge == SM.Prosecutor && later.judge == SM.Prosecutor && later.score > 2
    ensures FirstBy([first, later], SM.Prosecutor) == Some(first)
    ensures !SecurityOverride([first, later])
  {
    assert ScoreOf([first, later], SM.Prosecutor) == later.score;
  }

  // ---------------------------------------------------------------------
  // The report's decisions
  // ---------------------------------------------------------------------

  /** `final_verdicts[criterion_id] = verdict` for every group, in group order. */
  function Verdicts(groups: Dict<seq<Opinion>>): Dict<Ruling> {
    if groups == [] then []
    else
      var n := |groups| - 1;
      Put(Verdicts(groups[..n]), groups[n].0, Synthesize(groups[n].1))
  }

  lemma {:induction false} VerdictsDistinct(groups: Dict<seq<Opinion>>)
    ensures DistinctKeys(Verdicts(groups))
  {
    if groups != [] {
      var n := |groups| - 1;
      VerdictsDistinct(groups[..n]);
      PutDistinct(Verdicts(groups[..n]), groups[n].0, Synthesize(groups[n].1));
    }
  }

  /** Each criterion's verdict is the ruling on its group. */
  lemma {:induction false} VerdictsAt(groups: Dict<seq<Opinion>>, c: string)
    requires DistinctKeys(groups)
    ensures Get(groups, c).None? ==> Get(Verdicts(groups), c).None?
    ensures Get(groups, c).Some? ==> Get(Verdicts(groups), c) == Some(Synthesize(Get(groups, c).value))
  {
    if groups != [] {
      var n := |groups| - 1;
      var init := groups[..n];
      var x := groups[n];
      var k := x.0;
      assert groups == init + [x];
      DistinctLast(groups);
      VerdictsAt(init, c);
      GetAppend(init, k, x.1, c);
      assert Verdicts(groups) == Put(Verdicts(init), k, Synthesize(x.1));
      if c == k {
        assert Get(Verdicts(groups), c) == Some(Synthesize(x.1));
      } else {
        assert Get(Verdicts(groups), c) == Get(Verdicts(init), c);
      }
    }
  }

  /** `_get_score_emoji`. */
  datatype Badge = Star | Check | Caution | Cross

  function BadgeOf(score: int): (b: Badge)
    ensures b == Star <==> score >= 5
    ensures b == Check <==> score == 4
    ensures b == Caution <==> score == 3
    ensures b == Cross <==> score <= 2
  {
    if score >= 5 then Star else if score >= 4 then Check else if score >= 3 then Caution else Cross
  }

  /** The badge of every verdict, in verdict order. */
  function Badges(rulings: Dict<Ruling>): seq<Badge> {
    seq(|rulings|, k requires 0 <= k < |rulings| => BadgeOf(rulings[k].1.score))
  }

  /** The sum of the verdict scores. */
  function ScoreSum(rulings: Dict<Ruling>): int {
    if rulings == [] then 0 else ScoreSum(rulings[..|rulings| - 1]) + rulings[|rulings| - 1].1.score
  }

  /** `sum(verdicts.values()) / len(verdicts) if verdicts else 0`. */
  function OverallScore(rulings: Dict<Ruling>): real {
    if rulings == [] then 0.0 else ScoreSum(rulings) as real / |rulings| as real
  }

  predicate ScoresInRange(rulings: Dict<Ruling>) {
    forall k :: 0 <= k < |rulings| ==> 1 <= rulings[k].1.score <= 5
  }

  lemma {:induction false} ScoreSumBounds(rulings: Dict<Ruling>)
    requires ScoresInRange(rulings)
    ensures |rulings| <= ScoreSum(rulings) <= 5 * |rulings|
  {
    if rulings != [] {
      var n := |rulings| - 1;
      assert forall k :: 0 <= k < n ==> rulings[..n][k] == rulings[k];
      ScoreSumBounds(rulings[..n]);
    }
  }

  lemma NonNegativeFactor(a: real, b: real)
    requires b > 0.0 && a * b >= 0.0
    ensures a >= 0.0
  {
  }

  /** A total between `n` and `5n` over `n` items has a mean in [1, 5]. */
  lemma MeanBounds(total: real, n: real)
    requires n > 0.0 && n <= total <= 5.0 * n
    ensures 1.0 <= total / n <= 5.0
  {
    var q := total / n;
    assert q * n == total;
    assert (q - 1.0) * n == total - n;
    NonNegativeFactor(q - 1.0, n);
    assert (5.0 - q) * n == 5.0 * n - total;
    NonNegativeFactor(5.0 - q, n);
  }

  /** The overall score is the mean verdict score: 0 without verdicts, otherwise within the scores' range [1, 5]. */
  lemma OverallScoreBounds(rulings: Dict<Ruling>)
    requires ScoresInRange(rulings)
    ensures rulings == [] ==> OverallScore(rulings) == 0.0
    ensures rulings != [] ==> 1.0 <= OverallScore(rulings) <= 5.0
  {
    if rulings != [] {
      ScoreSumBounds(rulings);
      var n := |rulings| as real;
      var total := ScoreSum(rulings) as real;
      MeanBounds(total, n);
    }
  }

  /** The recommendation written for one low-scoring opinion. */
  datatype Advice = ImplementMissing | AddressSecurity | ImplementParallelism | Restate(excerpt: string)

  /** The first of "missing", "security", "parallel" in the lowercased argument picks the advice. */
  function AdviceFor(argument: string): (a: Advice)
    ensures a == ImplementMissing <==> Contains(Lower(argument), "missing")
    ensures a == AddressSecurity <==> !Contains(Lower(argument), "missing") && Contains(Lower(argument), "security")
    ensures a == ImplementParallelism <==>
              !Contains(Lower(argument), "missing") && !Contains(Lower(argument), "security")
              && Contains(Lower(argument), "parallel")
    ensures a.Restate? ==> a.excerpt == Prefix(argument, 100)
  {
    var low := Lower(argument);
    if Contains(low, "missing") then ImplementMissing
    else if Contains(low, "security") then AddressSecurity
    else if Contains(low, "parallel") then ImplementParallelism
    else Restate(Prefix(argument, 100))
  }

  /** One recommended action: who raised it and what to do. */
  datatype Action = Action(judge: SM.Persona, advice: Advice)

  /** The remediation entry of one criterion scoring below 4. */
  datatype Remedy = Remedy(criterionId: string, score: int, actions: seq<Action>)

  /** The actions for the opinions scoring below 4, in opinion order. */
  function ActionsFor(ops: seq<Opinion>): seq<Action> {
    if ops == [] then []
    else
      var n := |ops| - 1;
      ActionsFor(ops[..n]) + (if ops[n].score < 4 then [Action(ops[n].judge, AdviceFor(ops[n].argument))] else [])
  }

  /** Exactly the opinions scoring below 4 give an action. */
  lemma {:induction false} ActionsForLow(ops: seq<Opinion>, a: Action)
    ensures a in ActionsFor(ops) <==> exists o :: o in ops && o.score < 4 && a == Action(o.judge, AdviceFor(o.argument))
  {
    if ops != [] {
      var n := |ops| - 1;
      ActionsForLow(ops[..n], a);
      assert ops == ops[..n] + [ops[n]];
    }
  }

  /** The entry for one verdict: its criterion, its score and the actions from that criterion's opinions. */
  function RemedyOf(v: (string, Ruling), groups: Dict<seq<Opinion>>): Remedy {
    Remedy(v.0, v.1.score, ActionsFor(Get(groups, v.0).GetOr([])))
  }

  /** The remediation plan: the verdicts scoring below 4, in verdict order. */
  function RemediationOf(rulings: Dict<Ruling>, groups: Dict<seq<Opinion>>): seq<Remedy> {
    if rulings == [] then []
    else
      var n := |rulings| - 1;
      RemediationOf(rulings[..n], groups) + (if rulings[n].1.score < 4 then [RemedyOf(rulings[n], groups)] else [])
  }

  /** Every verdict scoring below 4 gets its entry. */
  lemma {:induction false} RemediationHas(rulings: Dict<Ruling>, groups: Dict<seq<Opinion>>, k: nat)
    requires k < |rulings| && rulings[k].1.score < 4
    ensures RemedyOf(rulings[k], groups) in RemediationOf(rulings, groups)
  {
    var n := |rulings| - 1;
    var init := rulings[..n];
    var tail := if rulings[n].1.score < 4 then [RemedyOf(rulings[n], groups)] else [];
    assert RemediationOf(rulings, groups) == RemediationOf(init, groups) + tail;
    if k < n {
      assert init[k] == rulings[k];
      RemediationHas(init, groups, k);
    } else {
      assert RemedyOf(rulings[k], groups) in tail;
    }
  }

  /** Every entry comes from a verdict scoring below 4. */
  lemma {:induction false} RemediationFrom(rulings: Dict<Ruling>, groups: Dict<seq<Opinion>>, r: Remedy)
    requires r in RemediationOf(rulings, groups)
    ensures exists k :: 0 <= k < |rulings| && rulings[k].1.score < 4 && r == RemedyOf(rulings[k], groups)
  {
    var n := |rulings| - 1;
    var init := rulings[..n];
    var tail := if rulings[n].1.score < 4 then [RemedyOf(rulings[n], groups)] else [];
    assert RemediationOf(rulings, groups) == RemediationOf(init, groups) + tail;
    if r in tail {
      assert rulings[n].1.score < 4 && r == RemedyOf(rulings[n], groups);
    } else {
      RemediationFrom(init, groups, r);
      var k :| 0 <= k < |init| && init[k].1.score < 4 && r == RemedyOf(init[k], groups);
      assert rulings[k] == init[k];
    }
  }

  /** Exactly the verdicts scoring below 4 get a remediation entry. */
  lemma RemediationOfLow(rulings: Dict<Ruling>, groups: Dict<seq<Opinion>>, r: Remedy)
    ensures r in RemediationOf(rulings, groups) <==>
              exists k :: 0 <= k < |rulings| && rulings[k].1.score < 4 && r == RemedyOf(rulings[k], groups)
  {
    if r in RemediationOf(rulings, groups) {
      RemediationFrom(rulings, groups, r);
    }
    if exists k :: 0 <= k < |rulings| && rulings[k].1.score < 4 && r == RemedyOf(rulings[k], groups) {
      var k :| 0 <= k < |rulings| && rulings[k].1.score < 4 && r == RemedyOf(rulings[k], groups);
      RemediationHas(rulings, groups, k);
    }
  }

  /** A criterion's first opinion from each persona, as the dialectical analysis shows them. */
  datatype Perspectives = Perspectives(
    criterionId: string,
    prosecutor: Option<Opinion>,
    defense: Option<Opinion>,
    techLead: Option<Opinion>)

  function PerspectivesOf(groups: Dict<seq<Opinion>>): seq<Perspectives> {
    seq(|groups|, k requires 0 <= k < |groups| =>
      Perspectives(groups[k].0, FirstBy(groups[k].1, SM.Prosecutor), FirstBy(groups[k].1, SM.Defense),
                   FirstBy(groups[k].1, SM.TechLead)))
  }

  /** What the final report decides; its markdown layout is not modelled. */
  datatype Report = Report(
    repoUrl: string,
    overallScore: real,
    rulings: Dict<Ruling>,
    badges: seq<Badge>,
    perspectives: seq<Perspectives>,
    remediation: seq<Remedy>)

  /** The report `chief_justice_node` writes for state `s`. */
  function AuditReport(s: SM.AgentState): Report {
    var groups := Grouped(s.opinions);
    var rulings := Verdicts(groups);
    Report(s.repoUrl, OverallScore(rulings), rulings, Badges(rulings), PerspectivesOf(groups),
           RemediationOf(rulings, groups))
  }

  /**
   * The report has one verdict per criterion that has an opinion, and that
   * verdict is the ruling on exactly that criterion's opinions.
   */
  lemma AuditReportRulings(s: SM.AgentState, c: string)
    ensures DistinctKeys(AuditReport(s).rulings)
    ensures OfCriterion(s.opinions, c) == [] ==> Get(AuditReport(s).rulings, c).None?
    ensures OfCriterion(s.opinions, c) != [] ==> Get(AuditReport(s).rulings, c) == Some(Synthesize(OfCriterion(s.opinions, c)))
  {
    GroupedDistinct(s.opinions);
    GroupedAt(s.opinions, c);
    VerdictsAt(Grouped(s.opinions), c);
    VerdictsDistinct(Grouped(s.opinions));
  }

  /** With valid opinions every verdict score is in [1, 5]. */
  lemma VerdictsInRange(ops: seq<Opinion>)
    requires AllValid(ops)
    ensures ScoresInRange(Verdicts(Grouped(ops)))
  {
    var groups := Grouped(ops);
    var rulings := Verdicts(groups);
    GroupedDistinct(ops);
    VerdictsDistinct(groups);
    forall k | 0 <= k < |rulings| ensures 1 <= rulings[k].1.score <= 5 {
      var c := rulings[k].0;
      GetAt(rulings, k);
      GroupedAt(ops, c);
      VerdictsAt(groups, c);
      var os := OfCriterion(ops, c);
      assert AllValid(os);
      SynthesizeBounds(os);
    }
  }

  /** With valid opinions every verdict is in [1, 5], and so is the overall score unless there are no opinions. */
  lemma AuditReportScores(s: SM.AgentState)
    requires AllValid(s.opinions)
    ensures ScoresInRange(AuditReport(s).rulings)
    ensures s.opinions == [] <==> AuditReport(s).overallScore == 0.0
    ensures s.opinions != [] ==> 1.0 <= AuditReport(s).overallScore <= 5.0
  {
    var rulings := Verdicts(Grouped(s.opinions));
    VerdictsInRange(s.opinions);
    OverallScoreBounds(rulings);
    if s.opinions != [] {
      var c := s.opinions[0].criterionId;
      OfCriterionHas(s.opinions, 0);
      GroupedAt(s.opinions, c);
      GroupedDistinct(s.opinions);
      VerdictsAt(Grouped(s.opinions), c);
      assert c in Keys(rulings);
    }
  }

  /** The verdict loop of `chief_justice_node`. */
  method RuleOnEach(groups: Dict<seq<Opinion>>) returns (rulings: Dict<Ruling>)
    ensures rulings == Verdicts(groups)
  {
    rulings := [];
    for i := 0 to |groups|
      invariant rulings == Verdicts(groups[..i])
    {
      assert groups[..i + 1][..i] == groups[..i];
      rulings := Put(rulings, groups[i].0, Synthesize(groups[i].1));
    }
    assert groups[..|groups|] == groups;
  }

  /** The actions listed under one criterion of the remediation plan. */
  method RecommendActions(ops: seq<Opinion>) returns (actions: seq<Action>)
    ensures actions == ActionsFor(ops)
  {
    actions := [];
    for j := 0 to |ops|
      invariant actions == ActionsFor(ops[..j])
    {
      assert ops[..j + 1][..j] == ops[..j];
      if ops[j].score < 4 {
        actions := actions + [Action(ops[j].judge, AdviceFor(ops[j].argument))];
      }
    }
    assert ops[..|ops|] == ops;
  }

  /** The remediation loop of the report. */
  method PlanRemediation(rulings: Dict<Ruling>, groups: Dict<seq<Opinion>>) returns (plan: seq<Remedy>)
    ensures plan == RemediationOf(rulings, groups)
  {
    plan := [];
    for i := 0 to |rulings|
      invariant plan == RemediationOf(rulings[..i], groups)
    {
      assert rulings[..i + 1][..i] == rulings[..i];
      var (c, ruling) := rulings[i];
      if ruling.score < 4 {
        var actions := RecommendActions(Get(groups, c).GetOr([]));
        plan := plan + [Remedy(c, ruling.score, actions)];
      }
    }
    assert rulings[..|rulings|] == rulings;
  }

  /**
   * `chief_justice_node`: group the opinions, rule on every criterion, and
   * draw up the remediation plan from the verdicts below 4.
   */
  method ChiefJusticeNode(s: SM.AgentState) returns (report: Report)
    ensures report == AuditReport(s)
  {
    var groups := GroupByCriterion(s.opinions);
    var rulings := RuleOnEach(groups);
    var plan := PlanRemediation(rulings, groups);
    report := Report(s.repoUrl, OverallScore(rulings), rulings, Badges(rulings), PerspectivesOf(groups), plan);
  }
}
