/** What to do about every setting identity this cycle: internal/agent/policy/engine.go. */
module PolicyPlan {
  import opened Prelude

  /** Which cell of the machine a setting speaks about, already in its normal form. Two settings of one
      identity are of one kind, because the kind is part of it. */
  datatype Identity = Identity(kind: string, key: string)

  /** Everything else a setting says; equality stands for equal JSON. */
  datatype Setting = Setting(id: Identity, value: string)

  datatype Assigned = Assigned(profile: string, version: int, settings: seq<Setting>, revert: bool, held: bool)

  datatype Claim = Claim(profile: string, setting: Setting)

  datatype Action = Action(id: Identity, setting: Setting, profiles: seq<string>, conflict: bool)

  // ----- Claims -------------------------------------------------------------------------------

  function ClaimsOf(a: Assigned): (cs: seq<Claim>)
    ensures |cs| == |a.settings|
  {
    seq(|a.settings|, i requires 0 <= i < |a.settings| => Claim(a.profile, a.settings[i]))
  }

  /** Every claim of every assigned profile, in assignment order. */
  function Claims(assigned_: seq<Assigned>): seq<Claim> {
    if assigned_ == [] then []
    else Claims(assigned_[..|assigned_| - 1]) + ClaimsOf(assigned_[|assigned_| - 1])
  }

  /** The claims on one identity. */
  function On(cs: seq<Claim>, id: Identity): seq<Claim> {
    if cs == [] then []
    else
      var c, rest := cs[|cs| - 1], On(cs[..|cs| - 1], id);
      if c.setting.id == id then rest + [c] else rest
  }

  /** The identities claimed, in the order first met. */
  function Seen(cs: seq<Claim>): seq<Identity> {
    if cs == [] then []
    else
      var c, rest := cs[|cs| - 1], Seen(cs[..|cs| - 1]);
      if c.setting.id in rest then rest else rest + [c.setting.id]
  }

  predicate Claimed(cs: seq<Claim>, id: Identity) { On(cs, id) != [] }

  function Profiles(cs: seq<Claim>): (ps: seq<string>)
    ensures |ps| == |cs|
  {
    seq(|cs|, i requires 0 <= i < |cs| => cs[i].profile)
  }

  /** Every claim asks for the same thing. */
  predicate AllSame(cs: seq<Claim>) {
    forall i :: 0 <= i < |cs| ==> cs[i].setting == cs[0].setting
  }

  function ActionFor(cs: seq<Claim>, id: Identity): Action {
    var on := On(cs, id);
    Action(id, if on == [] then Setting(id, "") else on[0].setting, Profiles(on), !AllSame(on))
  }

  function PlanOf(cs: seq<Claim>): seq<Action> {
    var ids := Seen(cs);
    seq(|ids|, i requires 0 <= i < |ids| => ActionFor(cs, ids[i]))
  }

  lemma {:induction false} OnMember(cs: seq<Claim>, id: Identity, c: Claim)
    ensures c in On(cs, id) <==> c in cs && c.setting.id == id
    decreases |cs|
  {
    if cs != [] {
      var n := |cs| - 1;
      OnMember(cs[..n], id, c);
      assert cs == cs[..n] + [cs[n]];
    }
  }

  lemma {:induction false} SeenMember(cs: seq<Claim>, id: Identity)
    ensures id in Seen(cs) <==> Claimed(cs, id)
    decreases |cs|
  {
    if cs != [] { SeenMember(cs[..|cs| - 1], id); }
  }

  lemma {:induction false} SeenDistinct(cs: seq<Claim>)
    ensures Distinct(Seen(cs))
    decreases |cs|
  {
    if cs != [] { SeenDistinct(cs[..|cs| - 1]); }
  }

  // ----- Plan as the source runs it -----------------------------------------------------------

  lemma ClaimsSnoc(assigned_: seq<Assigned>, i: nat)
    requires i < |assigned_|
    ensures Claims(assigned_[..i + 1]) == Claims(assigned_[..i]) + ClaimsOf(assigned_[i])
  {
    assert assigned_[..i + 1][..i] == assigned_[..i];
  }

  lemma OnSnoc(cs: seq<Claim>, c: Claim, id: Identity)
    ensures On(cs + [c], id) == if c.setting.id == id then On(cs, id) + [c] else On(cs, id)
  {
    assert (cs + [c])[..|cs|] == cs;
  }

  lemma SeenSnoc(cs: seq<Claim>, c: Claim)
    ensures Seen(cs + [c]) == if c.setting.id in Seen(cs) then Seen(cs) else Seen(cs) + [c.setting.id]
  {
    assert (cs + [c])[..|cs|] == cs;
  }

  /** allSame: the comparison loop. */
  method CompareAll(cs: seq<Claim>) returns (same: bool)
    requires cs != []
    ensures same <==> AllSame(cs)
  {
    var i := 1;
    while i < |cs|
      invariant 1 <= i <= |cs|
      invariant forall j :: 0 <= j < i ==> cs[j].setting == cs[0].setting
    {
      if cs[i].setting != cs[0].setting {
        return false;
      }
      i := i + 1;
    }
    return true;
  }

  ghost predicate Grouped(claims: map<Identity, seq<Claim>>, order: seq<Identity>, cs: seq<Claim>) {
    && order == Seen(cs)
    && (forall id :: id in claims <==> Claimed(cs, id))
    && (forall id :: id in claims ==> claims[id] == On(cs, id))
  }

  lemma GroupOne(claims: map<Identity, seq<Claim>>, order: seq<Identity>, cs: seq<Claim>, c: Claim)
    requires Grouped(claims, order, cs)
    ensures var id := c.setting.id;
            var was := if id in claims then claims[id] else [];
            Grouped(claims[id := was + [c]], if id in claims then order else order + [id], cs + [c])
  {
    hide On, Seen;
    forall id
      ensures On(cs + [c], id) == if c.setting.id == id then On(cs, id) + [c] else On(cs, id)
    {
      OnSnoc(cs, c, id);
    }
    SeenSnoc(cs, c);
    SeenMember(cs, c.setting.id);
  }

  /** Plan: group by identity in order of appearance, then decide each group. */
  method Plan(assigned_: seq<Assigned>) returns (actions: seq<Action>)
    ensures actions == PlanOf(Claims(assigned_))
  {
    hide Grouped;
    var order: seq<Identity> := [];
    var claims: map<Identity, seq<Claim>> := map[];
    ghost var cs: seq<Claim> := [];
    assert Grouped(claims, order, cs) by { NothingGrouped(); }
    for i := 0 to |assigned_|
      invariant cs == Claims(assigned_[..i]) && Grouped(claims, order, cs)
    {
      var a := assigned_[i];
      ClaimsSnoc(assigned_, i);
      ghost var before := cs;
      for k := 0 to |a.settings|
        invariant cs == before + ClaimsOf(a)[..k] && Grouped(claims, order, cs)
      {
        var s := a.settings[k];
        var c := Claim(a.profile, s);
        GroupOne(claims, order, cs, c);
        if s.id !in claims {
          order := order + [s.id];
          claims := claims[s.id := [] + [c]];
        } else {
          claims := claims[s.id := claims[s.id] + [c]];
        }
        assert before + ClaimsOf(a)[..k + 1] == before + ClaimsOf(a)[..k] + [c];
        cs := cs + [c];
      }
      assert ClaimsOf(a)[..|a.settings|] == ClaimsOf(a);
    }
    assert assigned_[..|assigned_|] == assigned_;
    actions := Decide(order, claims, cs);
  }

  lemma NothingGrouped()
    ensures Grouped(map[], [], [])
  {
  }

  method Decide(order: seq<Identity>, claims: map<Identity, seq<Claim>>, ghost cs: seq<Claim>) returns (actions: seq<Action>)
    requires Grouped(claims, order, cs)
    ensures actions == PlanOf(cs)
  {
    hide On, Seen, AllSame;
    actions := [];
    for i := 0 to |order|
      invariant |actions| == i
      invariant forall j :: 0 <= j < i ==> actions[j] == ActionFor(cs, order[j])
    {
      var id := order[i];
      SeenMember(cs, id);
      var on := claims[id];
      var profiles: seq<string> := [];
      for k := 0 to |on|
        invariant |profiles| == k
        invariant forall j :: 0 <= j < k ==> profiles[j] == on[j].profile
      {
        profiles := profiles + [on[k].profile];
      }
      assert profiles == Profiles(on);
      var same := CompareAll(on);
      actions := actions + [Action(id, on[0].setting, profiles, !same)];
    }
  }

  // ----- What a plan says ---------------------------------------------------------------------

  /** Every claimed identity has exactly one action, and nothing else has any. */
  lemma OneActionEach(cs: seq<Claim>, id: Identity)
    ensures (exists i :: 0 <= i < |PlanOf(cs)| && PlanOf(cs)[i].id == id) <==> exists c :: c in cs && c.setting.id == id
    ensures forall i, j :: 0 <= i < j < |PlanOf(cs)| ==> PlanOf(cs)[i].id != PlanOf(cs)[j].id
  {
    hide On, Seen, AllSame;
    SeenDistinct(cs);
    SeenMember(cs, id);
    var ids := Seen(cs);
    if id in ids {
      var k :| 0 <= k < |ids| && ids[k] == id;
      assert PlanOf(cs)[k].id == id;
      var on := On(cs, id);
      OnMember(cs, id, on[0]);
    }
    if c :| c in cs && c.setting.id == id {
      OnMember(cs, id, c);
    }
  }

  /** It conflicts exactly when two claims on it differ. */
  lemma ConflictExactly(cs: seq<Claim>, id: Identity)
    ensures ActionFor(cs, id).conflict <==>
              exists c, d :: c in cs && d in cs && c.setting.id == id && d.setting.id == id && c.setting != d.setting
  {
    hide On;
    var on := On(cs, id);
    if !AllSame(on) {
      var i :| 0 <= i < |on| && on[i].setting != on[0].setting;
      OnMember(cs, id, on[i]);
      OnMember(cs, id, on[0]);
    } else {
      forall c | c in cs && c.setting.id == id
        ensures on != [] && c.setting == on[0].setting
      {
        OnMember(cs, id, c);
        var i :| 0 <= i < |on| && on[i] == c;
      }
    }
  }

  /** It names exactly its claimants. */
  lemma ClaimantsExactly(cs: seq<Claim>, id: Identity, p: string)
    ensures p in ActionFor(cs, id).profiles <==> exists c :: c in cs && c.setting.id == id && c.profile == p
  {
    hide On, AllSame;
    var on := On(cs, id);
    if p in Profiles(on) {
      var i :| 0 <= i < |on| && Profiles(on)[i] == p;
      OnMember(cs, id, on[i]);
    }
    if c :| c in cs && c.setting.id == id && c.profile == p {
      OnMember(cs, id, c);
      var i :| 0 <= i < |on| && on[i] == c;
      assert Profiles(on)[i] == p;
    }
  }

  // ----- Order does not matter ----------------------------------------------------------------

  lemma {:induction false} ClaimsMembers(assigned_: seq<Assigned>, c: Claim)
    ensures c in Claims(assigned_) <==> exists a :: a in assigned_ && c.profile == a.profile && c.setting in a.settings
  {
    if assigned_ != [] {
      var n := |assigned_| - 1;
      var last := assigned_[n];
      ClaimsMembers(assigned_[..n], c);
      assert assigned_ == assigned_[..n] + [last];
      assert c in ClaimsOf(last) <==> c.profile == last.profile && c.setting in last.settings by {
        if c.profile == last.profile && c.setting in last.settings {
          var i :| 0 <= i < |last.settings| && last.settings[i] == c.setting;
          assert ClaimsOf(last)[i] == c;
        }
      }
    }
  }

  /** Two lists of the same profiles, in whatever order, make the same claims. */
  lemma SameClaims(xs: seq<Assigned>, ys: seq<Assigned>)
    requires forall a :: a in xs <==> a in ys
    ensures forall c :: c in Claims(xs) <==> c in Claims(ys)
  {
    forall c
      ensures c in Claims(xs) <==> c in Claims(ys)
    {
      ClaimsMembers(xs, c);
      ClaimsMembers(ys, c);
    }
  }

  /** For the same claims the plan of an identity is the same, but for the order of its claimants and
      for which of several conflicting settings it happens to quote. */
  lemma PlanIgnoresOrder(cs: seq<Claim>, ds: seq<Claim>, id: Identity)
    requires forall c :: c in cs <==> c in ds
    requires Claimed(cs, id)
    ensures Claimed(ds, id)
    ensures var a, b := ActionFor(cs, id), ActionFor(ds, id);
            a.conflict == b.conflict && (!a.conflict ==> a.setting == b.setting)
  {
    hide On;
    var on, om := On(cs, id), On(ds, id);
    OnMember(cs, id, on[0]);
    OnMember(ds, id, on[0]);
    ConflictExactly(cs, id);
    ConflictExactly(ds, id);
    OnMember(ds, id, om[0]);
  }
}
