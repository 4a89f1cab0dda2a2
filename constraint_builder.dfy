/** The builder as the script runs it: one pass over the catalogue that updates the net's
    dictionaries and its list of extra constraints in place. */
module ConstraintBuilder {
  import opened NetModel
  import opened Catalogue
  import opened EnzymeConstraints
  import opened BuildTheorems

  /** The Flexible-Net dictionary; the lowering of the stoichiometric model supplies its places
      and transitions. */
  class FlexNet {
    var places: map<string, real>
    var trans: map<string, Transition>
    var shandlers: map<string, Handler>
    var extracons: seq<Constraint>
    var obj: Option<Objective>

    function State(): Net
      reads this
    {
      Net(places, trans, shandlers, extracons, obj)
    }

    /** The net as the lowering leaves it; nothing is assumed about its contents. */
    constructor (net: Net)
      ensures State() == net
    {
      places := net.places;
      trans := net.trans;
      shandlers := net.shandlers;
      extracons := net.extracons;
      obj := net.obj;
    }

    /** The loop body of the regime's branch for entry (r, e): enzyme place (GECKO regimes),
        l0 = 0 on the catalysed transition, its handler, and the direction lock; the bcat lock
        is appended before the handler is written, the fcat lock after. */
    method AddEntry(r: string, e: Entry, reg: Regime) returns (outcome: Outcome)
      requires reg != NoEnzyme
      modifies this
      ensures Run(State(), outcome) == ApplyEntry(old(State()), r, e, reg)
    {
      var d := Catalysed(e.typ);
      if UsesEnzymePlaces(reg) {
        places := places[PlaceName(r, d) := e.ea];
      }
      var t := TransName(r, d);
      if t !in trans {
        return MissingTransition(t);
      }
      trans := trans[t := trans[t].(l0 := Some(0.0))];
      if e.typ == Bcat {
        extracons := extracons + Lock(r, e.typ);
      }
      shandlers := shandlers[HandlerName(r, d) := HandlerFor(r, e, reg)];
      if e.typ != Bcat {
        extracons := extracons + Lock(r, e.typ);
      }
      outcome := Ok;
    }

    /** The regime's loop over the catalogue, in order; it stops at the first entry whose
        transition the net lacks, as the script does at the failing subscript. */
    method AddCatalogue(cat: seq<(string, Entry)>, reg: Regime) returns (outcome: Outcome)
      requires reg != NoEnzyme
      modifies this
      ensures Run(State(), outcome) == Loop(old(State()), cat, reg)
    {
      ghost var start := State();
      outcome := Ok;
      var i := 0;
      while i < |cat| && outcome == Ok
        invariant 0 <= i <= |cat|
        invariant outcome == Ok ==> Loop(State(), cat[i..], reg) == Loop(start, cat, reg)
        invariant outcome != Ok ==> Run(State(), outcome) == Loop(start, cat, reg)
      {
        assert cat[i..][1..] == cat[i + 1..];
        outcome := AddEntry(cat[i].0, cat[i].1, reg);
        i := i + 1;
      }
    }

    /** Adds the enzymatic constraints of the regime named by tok for the entries of cat, then
        the objective and the growth and uptake constraints. */
    method AddEnzymaticConstraints(cat: seq<(string, Entry)>, tok: string, growth: real, bound: real) returns (outcome: Outcome)
      modifies this
      ensures Run(State(), outcome) == Build(old(State()), cat, tok, growth, bound)
      ensures TotalEnzyme in places && places[TotalEnzyme] == P
      ensures outcome == InvalidRegime <==> tok !in Tokens
      ensures outcome == Ok <==> tok in Tokens && (tok == "n" || AllTransitionsPresent(old(State()), cat))
      ensures outcome == Ok ==> obj == Some(Maximize(ProductTrans))
      ensures outcome == Ok ==> |extracons| >= 2 && extracons[|extracons| - 2..] == GlobalCons(growth, bound)
      ensures outcome != Ok ==> obj == old(obj)
    {
      ghost var before := State();
      shandlers := map[];
      extracons := [];
      places := places[TotalEnzyme := P];
      ghost var start := State();
      assert start == before.(shandlers := map[], extracons := [], places := before.places[TotalEnzyme := P]);
      var reg := ParseRegime(tok);
      if reg.None? {
        outcome := InvalidRegime;
      } else {
        outcome := Ok;
        if reg.value != NoEnzyme {
          outcome := AddCatalogue(cat, reg.value);
        }
        if outcome == Ok {
          obj := Some(Maximize(ProductTrans));
          extracons := extracons + [L0Eq(GrowthTrans, growth)];
          extracons := extracons + [L0Le(UptakeTrans, bound)];
        }
      }
      BuildSummary(before, cat, tok, growth, bound);
    }

    /** The script's run: the builder over the reaction catalogue Rxns. */
    method AddRxnsConstraints(tok: string, growth: real, bound: real) returns (outcome: Outcome)
      modifies this
      ensures Run(State(), outcome) == Build(old(State()), Rxns, tok, growth, bound)
    {
      outcome := AddEnzymaticConstraints(Rxns, tok, growth, bound);
    }
  }
}
