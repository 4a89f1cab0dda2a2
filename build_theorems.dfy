/** What the builder guarantees about the net it leaves behind: which keys it writes, with what,
    which transitions it locks, and the constraints it always appends. */
module BuildTheorems {
  import opened NetModel
  import opened Catalogue
  import opened EnzymeConstraints

  /** The handler, enzyme-place and transition keys a catalogue's entries write. */
  ghost function HandlerKeys(cat: seq<(string, Entry)>): set<string> { set x | x in cat :: CatHandler(x) }
  ghost function PlaceKeys(cat: seq<(string, Entry)>): set<string> { set x | x in cat :: CatPlace(x) }
  ghost function TransKeys(cat: seq<(string, Entry)>): set<string> { set x | x in cat :: CatTrans(x) }

  /** o is the failure at the first entry whose transition the net lacks. */
  ghost predicate FirstMissing(net: Net, cat: seq<(string, Entry)>, o: Outcome) {
    exists i :: 0 <= i < |cat| && o == MissingTransition(CatTrans(cat[i])) && CatTrans(cat[i]) !in net.trans
      && forall j :: 0 <= j < i ==> CatTrans(cat[j]) in net.trans
  }

  /** An extra constraint fixing the flow of t to zero. */
  ghost predicate Locked(cs: seq<Constraint>, t: string) {
    L0Eq(t, 0.0) in cs
  }

  /** A regime's token reads back as that regime. */
  lemma TokenRoundTrip(reg: Regime)
    ensures ParseRegime(Token(reg)) == Some(reg)
  {
  }

  /** The arcs of a handler by regime: e exactly in g+s and g, r always, p exactly in g+s and s;
      r runs s_r_d -> t_r_d, e runs E_r_d -> s_r_d and p runs E_total -> s_r_d. */
  lemma HandlerArcsTable(r: string, d: Dir, reg: Regime)
    requires reg != NoEnzyme
    ensures HandlerArcs(r, d, reg).Keys ==
      (if UsesEnzymePlaces(reg) then {"e"} else {}) + {"r"} + (if UsesPool(reg) then {"p"} else {})
    ensures "r" in HandlerArcs(r, d, reg) && HandlerArcs(r, d, reg)["r"] == Arc(HandlerName(r, d), TransName(r, d))
    ensures "e" in HandlerArcs(r, d, reg) ==> HandlerArcs(r, d, reg)["e"] == Arc(PlaceName(r, d), HandlerName(r, d))
    ensures "p" in HandlerArcs(r, d, reg) ==> HandlerArcs(r, d, reg)["p"] == Arc(TotalEnzyme, HandlerName(r, d))
  {
  }

  /** The rate constraints of a handler by regime: the capacity bound exactly in g+s and g, and
      first; the pool bound r <= kcat*p/mw exactly in g+s and s; nothing else. */
  lemma RateConstraintsTable(e: Entry, reg: Regime)
    requires reg != NoEnzyme
    ensures |RateConstraints(e, reg)| == (if UsesEnzymePlaces(reg) then 1 else 0) + (if UsesPool(reg) then 1 else 0)
    ensures Capacity(e) in RateConstraints(e, reg) <==> UsesEnzymePlaces(reg)
    ensures RLeKcatPOverMw(e.kcat, e.mw) in RateConstraints(e, reg) <==> UsesPool(reg)
    ensures UsesEnzymePlaces(reg) ==> RateConstraints(e, reg)[0] == Capacity(e)
    ensures forall c :: c in RateConstraints(e, reg) ==> c == Capacity(e) || c == RLeKcatPOverMw(e.kcat, e.mw)
  {
  }

  // ---------------------------------------------------------------------------------------
  // Keys built by concatenation

  /** prefix + r + suffix determines r and the direction, so distinct reactions never share a key. */
  lemma NameInjective(pre: string, a: string, da: Dir, b: string, db: Dir)
    ensures Name(pre, a, da) == Name(pre, b, db) <==> a == b && da == db
  {
    var s, t := Name(pre, a, da), Name(pre, b, db);
    if s == t {
      assert |a| == |b|;
      assert s[|s| - 1] == Suffix(da)[1] && t[|t| - 1] == Suffix(db)[1];
      assert a == s[|pre|..|pre| + |a|];
      assert b == t[|pre|..|pre| + |b|];
    }
  }

  /** No per-reaction enzyme place is the total-enzyme place. */
  lemma TotalEnzymeNotPlace(r: string, d: Dir)
    ensures PlaceName(r, d) != TotalEnzyme
  {
    var s := PlaceName(r, d);
    if |s| == |TotalEnzyme| {
      assert s[|s| - 2] == '_' && TotalEnzyme[|s| - 2] == 'a';
    }
  }

  lemma KeysSplit(cat: seq<(string, Entry)>)
    requires cat != []
    ensures HandlerKeys(cat) == {CatHandler(cat[0])} + HandlerKeys(cat[1..])
    ensures PlaceKeys(cat) == {CatPlace(cat[0])} + PlaceKeys(cat[1..])
    ensures TransKeys(cat) == {CatTrans(cat[0])} + TransKeys(cat[1..])
  {
    assert cat == [cat[0]] + cat[1..];
    assert forall x :: x in cat <==> x == cat[0] || x in cat[1..];
  }

  /** With distinct names, the first entry's keys are written by no later entry. */
  lemma FirstKeysFresh(cat: seq<(string, Entry)>)
    requires cat != [] && DistinctNames(cat)
    ensures DistinctNames(cat[1..])
    ensures CatHandler(cat[0]) !in HandlerKeys(cat[1..])
    ensures CatPlace(cat[0]) !in PlaceKeys(cat[1..])
  {
    forall x | x in cat[1..]
      ensures CatHandler(x) != CatHandler(cat[0]) && CatPlace(x) != CatPlace(cat[0])
    {
      var j :| 0 <= j < |cat[1..]| && cat[1..][j] == x;
      assert cat[j + 1] == x;
      NameInjective("s_", x.0, Catalysed(x.1.typ), cat[0].0, Catalysed(cat[0].1.typ));
      NameInjective("E_", x.0, Catalysed(x.1.typ), cat[0].0, Catalysed(cat[0].1.typ));
    }
    forall i, j | 0 <= i < j < |cat[1..]| ensures cat[1..][i].0 != cat[1..][j].0 {
      assert cat[1..][i] == cat[i + 1] && cat[1..][j] == cat[j + 1];
    }
  }

  // ---------------------------------------------------------------------------------------
  // The loop over the catalogue

  /** The loop succeeds exactly when every subscripted transition exists, and otherwise stops at
      the first one missing; it creates no transition and leaves the objective alone. */
  lemma LoopOutcome(net: Net, cat: seq<(string, Entry)>, reg: Regime)
    requires reg != NoEnzyme
    ensures Loop(net, cat, reg).net.trans.Keys == net.trans.Keys
    ensures Loop(net, cat, reg).net.obj == net.obj
    ensures Loop(net, cat, reg).outcome == Ok <==> AllTransitionsPresent(net, cat)
    ensures Loop(net, cat, reg).outcome != Ok ==> FirstMissing(net, cat, Loop(net, cat, reg).outcome)
  {
    LoopKeepsTransitions(net, cat, reg);
    LoopFailure(net, cat, reg);
  }

  /** The loop creates no transition and leaves the objective alone. */
  lemma {:induction false} LoopKeepsTransitions(net: Net, cat: seq<(string, Entry)>, reg: Regime)
    requires reg != NoEnzyme
    ensures Loop(net, cat, reg).net.trans.Keys == net.trans.Keys
    ensures Loop(net, cat, reg).net.obj == net.obj
    decreases |cat|
  {
    if cat != [] {
      var step := ApplyEntry(net, cat[0].0, cat[0].1, reg);
      if step.outcome == Ok {
        assert step.net.trans.Keys == net.trans.Keys;
        LoopKeepsTransitions(step.net, cat[1..], reg);
      }
    }
  }

  /** The loop succeeds exactly when every subscripted transition exists, and otherwise stops
      at the first one missing. */
  lemma {:induction false} LoopFailure(net: Net, cat: seq<(string, Entry)>, reg: Regime)
    requires reg != NoEnzyme
    ensures Loop(net, cat, reg).outcome == Ok <==> AllTransitionsPresent(net, cat)
    ensures Loop(net, cat, reg).outcome != Ok ==> FirstMissing(net, cat, Loop(net, cat, reg).outcome)
    decreases |cat|
  {
    if cat != [] {
      var step := ApplyEntry(net, cat[0].0, cat[0].1, reg);
      if step.outcome != Ok {
        assert FirstMissing(net, cat, step.outcome) by {
          assert step.outcome == MissingTransition(CatTrans(cat[0]));
        }
      } else {
        LoopFailure(step.net, cat[1..], reg);
        assert step.net.trans.Keys == net.trans.Keys;
        assert AllTransitionsPresent(net, cat) <==> AllTransitionsPresent(step.net, cat[1..]) by {
          if AllTransitionsPresent(step.net, cat[1..]) {
            forall i | 0 < i < |cat| ensures CatTrans(cat[i]) in net.trans {
              assert cat[1..][i - 1] == cat[i];
            }
          }
        }
        var out := Loop(step.net, cat[1..], reg);
        if out.outcome != Ok {
          var i :| 0 <= i < |cat[1..]| && out.outcome == MissingTransition(CatTrans(cat[1..][i]))
            && CatTrans(cat[1..][i]) !in step.net.trans
            && forall j :: 0 <= j < i ==> CatTrans(cat[1..][j]) in step.net.trans;
          assert cat[1..][i] == cat[i + 1];
          forall j | 0 <= j < i + 1 ensures CatTrans(cat[j]) in net.trans {
            if j > 0 { assert cat[1..][j - 1] == cat[j]; }
          }
        }
      }
    }
  }

  /** The loop changes no transition that no entry subscripts. */
  lemma {:induction false} LoopTransitionsFrame(net: Net, cat: seq<(string, Entry)>, reg: Regime)
    requires reg != NoEnzyme
    ensures forall t :: t in net.trans && t !in TransKeys(cat) ==>
      t in Loop(net, cat, reg).net.trans && Loop(net, cat, reg).net.trans[t] == net.trans[t]
    decreases |cat|
  {
    if cat != [] {
      var step := ApplyEntry(net, cat[0].0, cat[0].1, reg);
      KeysSplit(cat);
      if step.outcome == Ok {
        LoopTransitionsFrame(step.net, cat[1..], reg);
      }
    }
  }

  /** A successful loop leaves l0 = 0 on every catalysed transition. */
  lemma {:induction false} LoopTransitions(net: Net, cat: seq<(string, Entry)>, reg: Regime)
    requires reg != NoEnzyme
    requires Loop(net, cat, reg).outcome == Ok
    ensures forall i :: 0 <= i < |cat| ==>
      CatTrans(cat[i]) in Loop(net, cat, reg).net.trans && Loop(net, cat, reg).net.trans[CatTrans(cat[i])].l0 == Some(0.0)
    decreases |cat|
  {
    if cat != [] {
      var step := ApplyEntry(net, cat[0].0, cat[0].1, reg);
      var t0 := CatTrans(cat[0]);
      assert step.outcome == Ok;
      assert t0 in step.net.trans && step.net.trans[t0].l0 == Some(0.0);
      var fin := Loop(step.net, cat[1..], reg).net;
      LoopTransitions(step.net, cat[1..], reg);
      forall i | 0 <= i < |cat| ensures CatTrans(cat[i]) in fin.trans && fin.trans[CatTrans(cat[i])].l0 == Some(0.0) {
        if i > 0 {
          assert cat[i] == cat[1..][i - 1];
        } else if t0 in TransKeys(cat[1..]) {
          var y :| y in cat[1..] && CatTrans(y) == t0;
          var k :| 0 <= k < |cat[1..]| && cat[1..][k] == y;
        } else {
          LoopTransitionsFrame(step.net, cat[1..], reg);
        }
      }
    }
  }

  /** A successful loop adds exactly one handler key per entry, on its catalysed direction. */
  lemma {:induction false} LoopHandlerKeys(net: Net, cat: seq<(string, Entry)>, reg: Regime)
    requires reg != NoEnzyme
    requires Loop(net, cat, reg).outcome == Ok
    ensures Loop(net, cat, reg).net.shandlers.Keys == net.shandlers.Keys + HandlerKeys(cat)
    decreases |cat|
  {
    if cat != [] {
      var step := ApplyEntry(net, cat[0].0, cat[0].1, reg);
      assert step.outcome == Ok;
      assert step.net.shandlers.Keys == net.shandlers.Keys + {CatHandler(cat[0])};
      KeysSplit(cat);
      LoopHandlerKeys(step.net, cat[1..], reg);
    }
  }

  /** The loop leaves alone every handler that no entry writes. */
  lemma {:induction false} LoopHandlersFrame(net: Net, cat: seq<(string, Entry)>, reg: Regime)
    requires reg != NoEnzyme
    ensures forall k :: k in net.shandlers && k !in HandlerKeys(cat) ==>
      k in Loop(net, cat, reg).net.shandlers && Loop(net, cat, reg).net.shandlers[k] == net.shandlers[k]
    decreases |cat|
  {
    if cat != [] {
      var step := ApplyEntry(net, cat[0].0, cat[0].1, reg);
      KeysSplit(cat);
      if step.outcome == Ok {
        LoopHandlersFrame(step.net, cat[1..], reg);
      }
    }
  }

  /** With distinct names, a successful loop gives each entry the handler of its regime, keyed
      by its catalysed direction. */
  lemma {:induction false} LoopHandlers(net: Net, cat: seq<(string, Entry)>, reg: Regime)
    requires reg != NoEnzyme && DistinctNames(cat)
    requires Loop(net, cat, reg).outcome == Ok
    ensures forall i :: 0 <= i < |cat| ==>
      CatHandler(cat[i]) in Loop(net, cat, reg).net.shandlers &&
      Loop(net, cat, reg).net.shandlers[CatHandler(cat[i])] == HandlerFor(cat[i].0, cat[i].1, reg)
    decreases |cat|
  {
    if cat != [] {
      var step := ApplyEntry(net, cat[0].0, cat[0].1, reg);
      assert step.outcome == Ok;
      assert step.net.shandlers == net.shandlers[CatHandler(cat[0]) := HandlerFor(cat[0].0, cat[0].1, reg)];
      FirstKeysFresh(cat);
      LoopHandlers(step.net, cat[1..], reg);
      LoopHandlersFrame(step.net, cat[1..], reg);
      var fin := Loop(step.net, cat[1..], reg).net;
      forall i | 0 <= i < |cat|
        ensures CatHandler(cat[i]) in fin.shandlers && fin.shandlers[CatHandler(cat[i])] == HandlerFor(cat[i].0, cat[i].1, reg)
      {
        if i > 0 {
          assert cat[i] == cat[1..][i - 1];
        }
      }
    }
  }

  /** The loop writes no place but the enzyme places of its entries, and none at all in
      regime s. */
  lemma {:induction false} LoopPlacesFrame(net: Net, cat: seq<(string, Entry)>, reg: Regime)
    requires reg != NoEnzyme
    ensures forall k :: k in net.places && k !in PlaceKeys(cat) ==>
      k in Loop(net, cat, reg).net.places && Loop(net, cat, reg).net.places[k] == net.places[k]
    ensures !UsesEnzymePlaces(reg) ==> Loop(net, cat, reg).net.places == net.places
    decreases |cat|
  {
    if cat != [] {
      var step := ApplyEntry(net, cat[0].0, cat[0].1, reg);
      KeysSplit(cat);
      if step.outcome == Ok {
        LoopPlacesFrame(step.net, cat[1..], reg);
      }
    }
  }

  /** In regimes g+s and g a successful loop adds exactly the entries' enzyme places. */
  lemma {:induction false} LoopPlaceKeys(net: Net, cat: seq<(string, Entry)>, reg: Regime)
    requires UsesEnzymePlaces(reg)
    requires Loop(net, cat, reg).outcome == Ok
    ensures Loop(net, cat, reg).net.places.Keys == net.places.Keys + PlaceKeys(cat)
    decreases |cat|
  {
    if cat != [] {
      var step := ApplyEntry(net, cat[0].0, cat[0].1, reg);
      assert step.outcome == Ok;
      assert step.net.places.Keys == net.places.Keys + {CatPlace(cat[0])};
      KeysSplit(cat);
      LoopPlaceKeys(step.net, cat[1..], reg);
    }
  }

  /** With distinct names, a successful loop in regimes g+s and g marks each entry's enzyme
      place with the entry's enzyme abundance. */
  lemma {:induction false} LoopPlaces(net: Net, cat: seq<(string, Entry)>, reg: Regime)
    requires UsesEnzymePlaces(reg) && DistinctNames(cat)
    requires Loop(net, cat, reg).outcome == Ok
    ensures forall i :: 0 <= i < |cat| ==>
      CatPlace(cat[i]) in Loop(net, cat, reg).net.places &&
      Loop(net, cat, reg).net.places[CatPlace(cat[i])] == cat[i].1.ea
    decreases |cat|
  {
    if cat != [] {
      var step := ApplyEntry(net, cat[0].0, cat[0].1, reg);
      assert step.outcome == Ok;
      assert step.net.places == net.places[CatPlace(cat[0]) := cat[0].1.ea];
      FirstKeysFresh(cat);
      LoopPlaces(step.net, cat[1..], reg);
      LoopPlacesFrame(step.net, cat[1..], reg);
      var fin := Loop(step.net, cat[1..], reg).net;
      forall i | 0 <= i < |cat| ensures CatPlace(cat[i]) in fin.places && fin.places[CatPlace(cat[i])] == cat[i].1.ea {
        if i > 0 {
          assert cat[i] == cat[1..][i - 1];
        }
      }
    }
  }

  /** A successful loop appends exactly the catalogue's direction locks, in order. */
  lemma {:induction false} LoopExtracons(net: Net, cat: seq<(string, Entry)>, reg: Regime)
    requires reg != NoEnzyme
    requires Loop(net, cat, reg).outcome == Ok
    ensures Loop(net, cat, reg).net.extracons == net.extracons + Locks(cat)
    decreases |cat|
  {
    if cat != [] {
      var step := ApplyEntry(net, cat[0].0, cat[0].1, reg);
      LoopExtracons(step.net, cat[1..], reg);
      assert net.extracons + Lock(cat[0].0, cat[0].1.typ) + Locks(cat[1..])
          == net.extracons + (Lock(cat[0].0, cat[0].1.typ) + Locks(cat[1..]));
    }
  }

  /** A failed loop has appended only direction locks. */
  lemma {:induction false} LoopExtraconsFailed(net: Net, cat: seq<(string, Entry)>, reg: Regime)
    requires reg != NoEnzyme
    ensures forall c :: c in Loop(net, cat, reg).net.extracons ==> c in net.extracons || c in Locks(cat)
    decreases |cat|
  {
    if cat != [] {
      var step := ApplyEntry(net, cat[0].0, cat[0].1, reg);
      if step.outcome == Ok {
        LoopExtraconsFailed(step.net, cat[1..], reg);
      }
    }
  }

  // ---------------------------------------------------------------------------------------
  // Direction locks

  /** A constraint is a lock of the catalogue exactly when it is the lock of one of its entries. */
  lemma {:induction false} LocksMember(cat: seq<(string, Entry)>, c: Constraint)
    ensures c in Locks(cat) <==> exists j :: 0 <= j < |cat| && c in Lock(cat[j].0, cat[j].1.typ)
    decreases |cat|
  {
    if cat != [] {
      LocksMember(cat[1..], c);
      if c in Locks(cat[1..]) {
        var j :| 0 <= j < |cat[1..]| && c in Lock(cat[1..][j].0, cat[1..][j].1.typ);
        assert cat[1..][j] == cat[j + 1];
      }
      if exists j :: 0 <= j < |cat| && c in Lock(cat[j].0, cat[j].1.typ) {
        var j :| 0 <= j < |cat| && c in Lock(cat[j].0, cat[j].1.typ);
        if j > 0 {
          assert cat[1..][j - 1] == cat[j];
        }
      }
    }
  }

  /** The kinetic type whose entries lock direction d. */
  function Lockable(d: Dir): set<Typ> {
    if d == Bwd then {Fcat} else {Bcat}
  }

  /** Direction d of entry i is locked exactly when the entry's type locks that direction. */
  lemma LockedDirection(cat: seq<(string, Entry)>, i: nat, d: Dir)
    requires DistinctNames(cat) && i < |cat|
    ensures Locked(Locks(cat), TransName(cat[i].0, d)) <==> cat[i].1.typ in Lockable(d)
  {
    var r := cat[i].0;
    var c := L0Eq(TransName(r, d), 0.0);
    LocksMember(cat, c);
    if c in Locks(cat) {
      var j :| 0 <= j < |cat| && c in Lock(cat[j].0, cat[j].1.typ);
      LockOwner(cat[j].0, cat[j].1.typ, r, d);
      assert cat[j].0 == cat[i].0;
      assert j == i;
    }
    if cat[i].1.typ in Lockable(d) {
      LockOfLockable(r, cat[i].1.typ, d);
      assert exists j :: 0 <= j < |cat| && c in Lock(cat[j].0, cat[j].1.typ);
    }
  }

  /** An entry whose type locks direction d has the lock on t_r_d. */
  lemma LockOfLockable(r: string, typ: Typ, d: Dir)
    requires typ in Lockable(d)
    ensures L0Eq(TransName(r, d), 0.0) in Lock(r, typ)
  {
  }

  /** The lock of entry (x, typ) fixes t_r_d only for r = x and d the direction typ locks. */
  lemma LockOwner(x: string, typ: Typ, r: string, d: Dir)
    requires L0Eq(TransName(r, d), 0.0) in Lock(x, typ)
    ensures x == r && typ in Lockable(d)
  {
    NameInjective("t_", x, Opposite(Catalysed(typ)), r, d);
  }

  /** Each fcat entry locks its backward transition, each bcat entry its forward one, and
      fonly and scillo entries lock neither: no entry locks both directions. */
  lemma LocksOfEntry(cat: seq<(string, Entry)>, i: nat)
    requires DistinctNames(cat) && i < |cat|
    ensures Locked(Locks(cat), TransName(cat[i].0, Bwd)) <==> cat[i].1.typ == Fcat
    ensures Locked(Locks(cat), TransName(cat[i].0, Fwd)) <==> cat[i].1.typ == Bcat
  {
    LockedDirection(cat, i, Bwd);
    LockedDirection(cat, i, Fwd);
  }

  // ---------------------------------------------------------------------------------------
  // The whole builder

  /** Every run, whatever its outcome, has set E_total to P and created no transition. The run
      exits on exactly the tokens other than g+s, g, s and n; it succeeds exactly when the token
      is valid and, outside regime n, every subscripted transition exists; otherwise it stops at
      the first missing one. */
  lemma BuildOutcome(net: Net, cat: seq<(string, Entry)>, tok: string, growth: real, bound: real)
    ensures TotalEnzyme in Build(net, cat, tok, growth, bound).net.places
    ensures Build(net, cat, tok, growth, bound).net.places[TotalEnzyme] == P
    ensures Build(net, cat, tok, growth, bound).net.trans.Keys == net.trans.Keys
    ensures Build(net, cat, tok, growth, bound).outcome == InvalidRegime <==> tok !in Tokens
    ensures Build(net, cat, tok, growth, bound).outcome == Ok <==>
      tok in Tokens && (tok == "n" || AllTransitionsPresent(net, cat))
    ensures Build(net, cat, tok, growth, bound).outcome.MissingTransition? ==>
      FirstMissing(net, cat, Build(net, cat, tok, growth, bound).outcome)
  {
    var start := net.(shandlers := map[], extracons := [], places := net.places[TotalEnzyme := P]);
    var reg := ParseRegime(tok);
    if reg.Some? && reg.value != NoEnzyme {
      LoopOutcome(start, cat, reg.value);
      LoopPlacesFrame(start, cat, reg.value);
      forall x | x in cat ensures CatPlace(x) != TotalEnzyme {
        TotalEnzymeNotPlace(x.0, Catalysed(x.1.typ));
      }
    }
  }

  /** An unknown token exits right after the reset: no handler, no extra constraint, no objective
      set, no transition touched. */
  lemma InvalidRegimeExits(net: Net, cat: seq<(string, Entry)>, tok: string, growth: real, bound: real)
    requires tok !in Tokens
    ensures Build(net, cat, tok, growth, bound).outcome == InvalidRegime
    ensures Build(net, cat, tok, growth, bound).net ==
      net.(shandlers := map[], extracons := [], places := net.places[TotalEnzyme := P])
  {
  }

  /** A run stopped at a missing transition has not set the objective and has appended neither
      global constraint: every extra constraint it wrote is a direction lock. */
  lemma MissingTransitionStops(net: Net, cat: seq<(string, Entry)>, tok: string, growth: real, bound: real)
    requires Build(net, cat, tok, growth, bound).outcome.MissingTransition?
    ensures Build(net, cat, tok, growth, bound).net.obj == net.obj
    ensures forall c :: c in Build(net, cat, tok, growth, bound).net.extracons ==> c in Locks(cat)
  {
    var start := net.(shandlers := map[], extracons := [], places := net.places[TotalEnzyme := P]);
    var reg := ParseRegime(tok);
    LoopOutcome(start, cat, reg.value);
    LoopExtraconsFailed(start, cat, reg.value);
  }

  /** A successful run maximises t_EX_scino_f, and its extra constraints are the direction locks
      (none in regime n) followed by the growth equality and then the uptake bound. */
  lemma BuildGlobals(net: Net, cat: seq<(string, Entry)>, tok: string, growth: real, bound: real)
    requires Build(net, cat, tok, growth, bound).outcome == Ok
    ensures Build(net, cat, tok, growth, bound).net.obj == Some(Maximize(ProductTrans))
    ensures Build(net, cat, tok, growth, bound).net.extracons ==
      (if tok == "n" then [] else Locks(cat)) + GlobalCons(growth, bound)
    ensures |Build(net, cat, tok, growth, bound).net.extracons| ==
      (if tok == "n" then 0 else Count(cat, Fcat) + Count(cat, Bcat)) + 2
    ensures var cs := Build(net, cat, tok, growth, bound).net.extracons;
      cs[|cs| - 2] == L0Eq(GrowthTrans, growth) && cs[|cs| - 1] == L0Le(UptakeTrans, bound)
  {
    var start := net.(shandlers := map[], extracons := [], places := net.places[TotalEnzyme := P]);
    var reg := ParseRegime(tok);
    if reg.value != NoEnzyme {
      LoopOutcome(start, cat, reg.value);
      LoopExtracons(start, cat, reg.value);
      LocksLength(cat);
    }
  }

  /** One direction lock per reversible entry (fcat or bcat), none for the others. */
  lemma {:induction false} LocksLength(cat: seq<(string, Entry)>)
    ensures |Locks(cat)| == Count(cat, Fcat) + Count(cat, Bcat)
    decreases |cat|
  {
    if cat != [] {
      LocksLength(cat[1..]);
    }
  }

  /** The facts a caller of the builder relies on, gathered for one run. */
  lemma BuildSummary(net: Net, cat: seq<(string, Entry)>, tok: string, growth: real, bound: real)
    ensures var run := Build(net, cat, tok, growth, bound);
      && TotalEnzyme in run.net.places && run.net.places[TotalEnzyme] == P
      && (run.outcome == InvalidRegime <==> tok !in Tokens)
      && (run.outcome == Ok <==> tok in Tokens && (tok == "n" || AllTransitionsPresent(net, cat)))
      && (run.outcome == Ok ==> run.net.obj == Some(Maximize(ProductTrans)))
      && (run.outcome == Ok ==> |run.net.extracons| >= 2 && run.net.extracons[|run.net.extracons| - 2..] == GlobalCons(growth, bound))
      && (run.outcome != Ok ==> run.net.obj == net.obj)
  {
    BuildOutcome(net, cat, tok, growth, bound);
    var run := Build(net, cat, tok, growth, bound);
    if run.outcome == Ok {
      BuildGlobals(net, cat, tok, growth, bound);
    } else if run.outcome.MissingTransition? {
      MissingTransitionStops(net, cat, tok, growth, bound);
    }
  }

  /** Regime n adds no handler, touches no transition and no place but E_total, and leaves only
      the two global constraints. */
  lemma NoEnzymeRegime(net: Net, cat: seq<(string, Entry)>, growth: real, bound: real)
    ensures Build(net, cat, "n", growth, bound).outcome == Ok
    ensures Build(net, cat, "n", growth, bound).net.shandlers == map[]
    ensures Build(net, cat, "n", growth, bound).net.trans == net.trans
    ensures Build(net, cat, "n", growth, bound).net.places == net.places[TotalEnzyme := P]
    ensures Build(net, cat, "n", growth, bound).net.extracons == GlobalCons(growth, bound)
  {
  }

  /** In regimes g+s, g and s a successful run has exactly one handler per entry, on the entry's
      catalysed direction, with the arcs and constraints of the regime. */
  lemma BuildHandlers(net: Net, cat: seq<(string, Entry)>, reg: Regime, growth: real, bound: real)
    requires reg != NoEnzyme && DistinctNames(cat) && AllTransitionsPresent(net, cat)
    ensures Build(net, cat, Token(reg), growth, bound).outcome == Ok
    ensures Build(net, cat, Token(reg), growth, bound).net.shandlers.Keys == HandlerKeys(cat)
    ensures forall i :: 0 <= i < |cat| ==>
      Build(net, cat, Token(reg), growth, bound).net.shandlers[CatHandler(cat[i])] == HandlerFor(cat[i].0, cat[i].1, reg)
  {
    var start := net.(shandlers := map[], extracons := [], places := net.places[TotalEnzyme := P]);
    TokenRoundTrip(reg);
    LoopOutcome(start, cat, reg);
    LoopHandlerKeys(start, cat, reg);
    LoopHandlers(start, cat, reg);
  }

  /** In regimes g+s, g and s a successful run sets l0 = 0 on every catalysed transition and
      changes no other transition. */
  lemma BuildTransitions(net: Net, cat: seq<(string, Entry)>, reg: Regime, growth: real, bound: real)
    requires reg != NoEnzyme && AllTransitionsPresent(net, cat)
    ensures Build(net, cat, Token(reg), growth, bound).outcome == Ok
    ensures Build(net, cat, Token(reg), growth, bound).net.trans.Keys == net.trans.Keys
    ensures forall i :: 0 <= i < |cat| ==>
      Build(net, cat, Token(reg), growth, bound).net.trans[CatTrans(cat[i])].l0 == Some(0.0)
    ensures forall t :: t in net.trans && t !in TransKeys(cat) ==>
      Build(net, cat, Token(reg), growth, bound).net.trans[t] == net.trans[t]
  {
    var start := net.(shandlers := map[], extracons := [], places := net.places[TotalEnzyme := P]);
    TokenRoundTrip(reg);
    LoopOutcome(start, cat, reg);
    LoopTransitions(start, cat, reg);
    LoopTransitionsFrame(start, cat, reg);
  }

  /** In g+s and g a successful run adds one enzyme place per entry, marked with its enzyme
      abundance, beside E_total; in s and n the only place written is E_total. */
  lemma BuildPlaces(net: Net, cat: seq<(string, Entry)>, reg: Regime, growth: real, bound: real)
    requires DistinctNames(cat) && AllTransitionsPresent(net, cat)
    ensures Build(net, cat, Token(reg), growth, bound).outcome == Ok
    ensures UsesEnzymePlaces(reg) ==>
      Build(net, cat, Token(reg), growth, bound).net.places.Keys == net.places.Keys + {TotalEnzyme} + PlaceKeys(cat)
    ensures UsesEnzymePlaces(reg) ==> forall i :: 0 <= i < |cat| ==>
      Build(net, cat, Token(reg), growth, bound).net.places[CatPlace(cat[i])] == cat[i].1.ea
    ensures UsesEnzymePlaces(reg) ==>
      forall k :: k in net.places && k != TotalEnzyme && k !in PlaceKeys(cat) ==>
        k in Build(net, cat, Token(reg), growth, bound).net.places &&
        Build(net, cat, Token(reg), growth, bound).net.places[k] == net.places[k]
    ensures !UsesEnzymePlaces(reg) ==>
      Build(net, cat, Token(reg), growth, bound).net.places == net.places[TotalEnzyme := P]
  {
    var start := net.(shandlers := map[], extracons := [], places := net.places[TotalEnzyme := P]);
    TokenRoundTrip(reg);
    if reg != NoEnzyme {
      LoopOutcome(start, cat, reg);
      LoopPlacesFrame(start, cat, reg);
      if UsesEnzymePlaces(reg) {
        LoopPlaceKeys(start, cat, reg);
        LoopPlaces(start, cat, reg);
      }
    }
  }

  /** In g+s, g and s each fcat entry's backward transition and each bcat entry's forward
      transition is fixed to zero, and no other direction of a catalogue entry is. */
  lemma DirectionLocking(net: Net, cat: seq<(string, Entry)>, reg: Regime, growth: real, bound: real, i: nat)
    requires reg != NoEnzyme && DistinctNames(cat) && AllTransitionsPresent(net, cat) && i < |cat|
    ensures Build(net, cat, Token(reg), growth, bound).outcome == Ok
    ensures var cs := Build(net, cat, Token(reg), growth, bound).net.extracons;
      && |cs| >= 2
      && (Locked(cs[..|cs| - 2], "t_" + cat[i].0 + "_b") <==> cat[i].1.typ == Fcat)
      && (Locked(cs[..|cs| - 2], "t_" + cat[i].0 + "_f") <==> cat[i].1.typ == Bcat)
  {
    TokenRoundTrip(reg);
    BuildOutcome(net, cat, Token(reg), growth, bound);
    BuildGlobals(net, cat, Token(reg), growth, bound);
    var cs := Build(net, cat, Token(reg), growth, bound).net.extracons;
    assert cs[..|cs| - 2] == Locks(cat);
    LocksOfEntry(cat, i);
  }

  // ---------------------------------------------------------------------------------------
  // Per-regime shapes of what an entry receives

  /** In g+s each fonly or fcat entry r gets place E_r_f marked with ea, l0 = 0 on t_r_f, and
      handler s_r_f with arcs e: E_r_f -> s_r_f, r: s_r_f -> t_r_f, p: E_total -> s_r_f and
      exactly the constraints r <= kcat*ea and r <= kcat*p/mw. */
  lemma GeckoSMomentForward(net: Net, cat: seq<(string, Entry)>, growth: real, bound: real, i: nat)
    requires DistinctNames(cat) && AllTransitionsPresent(net, cat) && i < |cat|
    requires cat[i].1.typ == Fonly || cat[i].1.typ == Fcat
    ensures var run, r, e := Build(net, cat, "g+s", growth, bound), cat[i].0, cat[i].1;
      && run.outcome == Ok
      && "E_" + r + "_f" in run.net.places && run.net.places["E_" + r + "_f"] == e.ea
      && "t_" + r + "_f" in run.net.trans && run.net.trans["t_" + r + "_f"].l0 == Some(0.0)
      && "s_" + r + "_f" in run.net.shandlers
      && run.net.shandlers["s_" + r + "_f"] == Handler(
           map["e" := Arc("E_" + r + "_f", "s_" + r + "_f"),
               "r" := Arc("s_" + r + "_f", "t_" + r + "_f"),
               "p" := Arc("E_total", "s_" + r + "_f")],
           [RLeKcatEa(e.kcat, e.ea), RLeKcatPOverMw(e.kcat, e.mw)])
  {
    BuildHandlers(net, cat, GeckoSMoment, growth, bound);
    BuildTransitions(net, cat, GeckoSMoment, growth, bound);
    BuildPlaces(net, cat, GeckoSMoment, growth, bound);
    assert cat[i] in cat;
  }

  /** A bcat entry r gets its handler on the backward direction in every enzymatic regime:
      handler s_r_b with its r arc to t_r_b, and no forward handler s_r_f. */
  lemma BackwardHandler(net: Net, cat: seq<(string, Entry)>, reg: Regime, growth: real, bound: real, i: nat)
    requires reg != NoEnzyme && DistinctNames(cat) && AllTransitionsPresent(net, cat) && i < |cat|
    requires cat[i].1.typ == Bcat
    ensures var run, r := Build(net, cat, Token(reg), growth, bound), cat[i].0;
      && run.outcome == Ok
      && "s_" + r + "_b" in run.net.shandlers && "r" in run.net.shandlers["s_" + r + "_b"].arcs
      && run.net.shandlers["s_" + r + "_b"].arcs["r"] == Arc("s_" + r + "_b", "t_" + r + "_b")
      && "s_" + r + "_f" !in run.net.shandlers
  {
    var hs, r, e := Build(net, cat, Token(reg), growth, bound).net.shandlers, cat[i].0, cat[i].1;
    BuildHandlers(net, cat, reg, growth, bound);
    assert cat[i] in cat;
    assert CatHandler(cat[i]) == "s_" + r + "_b" && CatTrans(cat[i]) == "t_" + r + "_b";
    assert hs["s_" + r + "_b"] == HandlerFor(r, e, reg);
    HandlerArcR(r, e, reg);
    ForwardKeysUnused(cat, i);
    assert HandlerName(r, Fwd) == "s_" + r + "_f";
  }

  /** A bcat entry r has l0 = 0 set on t_r_b, its place E_r_b marked with ea in g+s and g, and
      no place E_r_f created. */
  lemma BackwardPlaces(net: Net, cat: seq<(string, Entry)>, reg: Regime, growth: real, bound: real, i: nat)
    requires reg != NoEnzyme && DistinctNames(cat) && AllTransitionsPresent(net, cat) && i < |cat|
    requires cat[i].1.typ == Bcat
    ensures var run, r, e := Build(net, cat, Token(reg), growth, bound), cat[i].0, cat[i].1;
      && run.outcome == Ok
      && "t_" + r + "_b" in run.net.trans && run.net.trans["t_" + r + "_b"].l0 == Some(0.0)
      && (UsesEnzymePlaces(reg) ==> "E_" + r + "_b" in run.net.places && run.net.places["E_" + r + "_b"] == e.ea)
      && ("E_" + r + "_f" in run.net.places <==> "E_" + r + "_f" in net.places)
  {
    var r := cat[i].0;
    BuildTransitions(net, cat, reg, growth, bound);
    BuildPlaces(net, cat, reg, growth, bound);
    assert CatTrans(cat[i]) == "t_" + r + "_b" && CatPlace(cat[i]) == "E_" + r + "_b";
    ForwardKeysUnused(cat, i);
    assert PlaceName(r, Fwd) == "E_" + r + "_f";
    TotalEnzymeNotPlace(r, Fwd);
  }

  /** Every handler's r arc runs from the handler to its catalysed transition. */
  lemma HandlerArcR(r: string, e: Entry, reg: Regime)
    requires reg != NoEnzyme
    ensures "r" in HandlerFor(r, e, reg).arcs
    ensures HandlerFor(r, e, reg).arcs["r"] == Arc(CatHandler((r, e)), CatTrans((r, e)))
  {
  }

  /** With distinct names, no entry writes the forward handler or forward enzyme place of a
      bcat entry. */
  lemma ForwardKeysUnused(cat: seq<(string, Entry)>, i: nat)
    requires DistinctNames(cat) && i < |cat| && cat[i].1.typ == Bcat
    ensures HandlerName(cat[i].0, Fwd) !in HandlerKeys(cat)
    ensures PlaceName(cat[i].0, Fwd) !in PlaceKeys(cat)
  {
    var r := cat[i].0;
    forall x | x in cat ensures CatHandler(x) != HandlerName(r, Fwd) && CatPlace(x) != PlaceName(r, Fwd) {
      var j :| 0 <= j < |cat| && cat[j] == x;
      NameInjective("s_", x.0, Catalysed(x.1.typ), r, Fwd);
      NameInjective("E_", x.0, Catalysed(x.1.typ), r, Fwd);
      assert x.0 == r ==> j == i;
    }
  }

  /** A scillo entry never gets an upper kcat*ea bound: in g+s and g it gets the lower bound
      r >= kcat*ea, it gets the pool bound r <= kcat*p/mw exactly in g+s and s, and in s that
      pool bound is its only constraint. */
  lemma ScilloBounds(net: Net, cat: seq<(string, Entry)>, reg: Regime, growth: real, bound: real, i: nat)
    requires reg != NoEnzyme && DistinctNames(cat) && AllTransitionsPresent(net, cat) && i < |cat|
    requires cat[i].1.typ == Scillo
    ensures var run, r, e := Build(net, cat, Token(reg), growth, bound), cat[i].0, cat[i].1;
      && run.outcome == Ok
      && "s_" + r + "_f" in run.net.shandlers
      && var cons := run.net.shandlers["s_" + r + "_f"].cons;
      && (forall c :: c in cons ==> !c.RLeKcatEa?)
      && (UsesEnzymePlaces(reg) <==> RGeKcatEa(e.kcat, e.ea) in cons)
      && (UsesPool(reg) <==> RLeKcatPOverMw(e.kcat, e.mw) in cons)
      && (reg == SMoment ==> cons == [RLeKcatPOverMw(e.kcat, e.mw)])
  {
    BuildHandlers(net, cat, reg, growth, bound);
    assert cat[i] in cat;
  }

  /** In regime g every handler has exactly the arcs e and r, no arc touches E_total, and its one
      constraint is a kcat*ea bound; entry r's handler s_r_d has arcs e: E_r_d -> s_r_d and
      r: s_r_d -> t_r_d and the single capacity bound of its entry. */
  lemma GeckoHandlers(net: Net, cat: seq<(string, Entry)>, growth: real, bound: real)
    requires DistinctNames(cat) && AllTransitionsPresent(net, cat)
    ensures Build(net, cat, "g", growth, bound).outcome == Ok
    ensures forall k :: k in Build(net, cat, "g", growth, bound).net.shandlers ==>
      var h := Build(net, cat, "g", growth, bound).net.shandlers[k];
      && h.arcs.Keys == {"e", "r"}
      && (forall a :: a in h.arcs.Values ==> a.src != TotalEnzyme && a.dst != TotalEnzyme)
      && |h.cons| == 1 && (h.cons[0].RLeKcatEa? || h.cons[0].RGeKcatEa?)
    ensures forall i :: 0 <= i < |cat| ==>
      var x := cat[i];
      && CatHandler(x) in Build(net, cat, "g", growth, bound).net.shandlers
      && Build(net, cat, "g", growth, bound).net.shandlers[CatHandler(x)] == Handler(
           map["e" := Arc(CatPlace(x), CatHandler(x)), "r" := Arc(CatHandler(x), CatTrans(x))],
           [if x.1.typ == Scillo then RGeKcatEa(x.1.kcat, x.1.ea) else RLeKcatEa(x.1.kcat, x.1.ea)])
  {
    BuildHandlers(net, cat, Gecko, growth, bound);
    var hs := Build(net, cat, "g", growth, bound).net.shandlers;
    forall k | k in hs
      ensures hs[k].arcs.Keys == {"e", "r"}
      ensures forall a :: a in hs[k].arcs.Values ==> a.src != TotalEnzyme && a.dst != TotalEnzyme
      ensures |hs[k].cons| == 1 && (hs[k].cons[0].RLeKcatEa? || hs[k].cons[0].RGeKcatEa?)
    {
      var x :| x in cat && k == CatHandler(x);
      var j :| 0 <= j < |cat| && cat[j] == x;
      GeckoHandlerShape(x.0, x.1);
    }
    forall i | 0 <= i < |cat|
      ensures hs[CatHandler(cat[i])] == Handler(
        map["e" := Arc(CatPlace(cat[i]), CatHandler(cat[i])), "r" := Arc(CatHandler(cat[i]), CatTrans(cat[i]))],
        [if cat[i].1.typ == Scillo then RGeKcatEa(cat[i].1.kcat, cat[i].1.ea) else RLeKcatEa(cat[i].1.kcat, cat[i].1.ea)])
    {
      GeckoHandlerShape(cat[i].0, cat[i].1);
    }
  }

  /** The GECKO-only handler of an entry: arcs e: E_r_d -> s_r_d and r: s_r_d -> t_r_d, none
      touching E_total, and the one capacity bound r <= kcat*ea (r >= kcat*ea for scillo). */
  lemma GeckoHandlerShape(r: string, e: Entry)
    ensures HandlerFor(r, e, Gecko) == Handler(
      map["e" := Arc(CatPlace((r, e)), CatHandler((r, e))), "r" := Arc(CatHandler((r, e)), CatTrans((r, e)))],
      [if e.typ == Scillo then RGeKcatEa(e.kcat, e.ea) else RLeKcatEa(e.kcat, e.ea)])
    ensures HandlerFor(r, e, Gecko).arcs.Keys == {"e", "r"}
    ensures forall a :: a in HandlerFor(r, e, Gecko).arcs.Values ==> a.src != TotalEnzyme && a.dst != TotalEnzyme
  {
    var d := Catalysed(e.typ);
    TotalEnzymeNotPlace(r, d);
    var h := HandlerFor(r, e, Gecko);
    assert HandlerName(r, d)[0] == 's' && TransName(r, d)[0] == 't';
    assert h.arcs == map["e" := Arc(PlaceName(r, d), HandlerName(r, d)), "r" := Arc(HandlerName(r, d), TransName(r, d))];
    forall a | a in h.arcs.Values ensures a.src != TotalEnzyme && a.dst != TotalEnzyme {
      var k :| k in h.arcs && h.arcs[k] == a;
    }
  }

  /** In regime s no enzyme place but E_total is written, and every handler has exactly the arcs
      r and p, p coming from E_total, and the one constraint r <= kcat*p/mw of its entry. */
  lemma SMomentHandlers(net: Net, cat: seq<(string, Entry)>, growth: real, bound: real)
    requires DistinctNames(cat) && AllTransitionsPresent(net, cat)
    ensures Build(net, cat, "s", growth, bound).outcome == Ok
    ensures Build(net, cat, "s", growth, bound).net.places == net.places[TotalEnzyme := P]
    ensures forall k :: k in Build(net, cat, "s", growth, bound).net.shandlers ==>
      var h := Build(net, cat, "s", growth, bound).net.shandlers[k];
      h.arcs.Keys == {"r", "p"} && h.arcs["p"] == Arc(TotalEnzyme, k) && |h.cons| == 1 && h.cons[0].RLeKcatPOverMw?
    ensures forall x :: x in cat ==>
      CatHandler(x) in Build(net, cat, "s", growth, bound).net.shandlers &&
      Build(net, cat, "s", growth, bound).net.shandlers[CatHandler(x)].cons == [RLeKcatPOverMw(x.1.kcat, x.1.mw)]
  {
    BuildHandlers(net, cat, SMoment, growth, bound);
    BuildPlaces(net, cat, SMoment, growth, bound);
  }
}
