/** What the enzymatic-constraint builder writes into the net, as functions of the net before,
    the catalogue and the regime. The class in ConstraintBuilder performs these updates in place. */
module EnzymeConstraints {
  import opened NetModel
  import opened Catalogue

  /** The constraint regime: GECKO and sMOMENT constraints, GECKO only, sMOMENT only, or none. */
  datatype Regime = GeckoSMoment | Gecko | SMoment | NoEnzyme

  /** The command-line tokens of the regimes. */
  const Tokens: set<string> := {"g+s", "g", "s", "n"}

  function Token(reg: Regime): (tok: string)
    ensures tok in Tokens
  {
    match reg
    case GeckoSMoment => "g+s"
    case Gecko => "g"
    case SMoment => "s"
    case NoEnzyme => "n"
  }

  /** Reads a regime token; None for a token the script rejects. */
  function ParseRegime(tok: string): (reg: Option<Regime>)
    ensures reg.None? <==> tok !in Tokens
    ensures reg.Some? ==> Token(reg.value) == tok
  {
    if tok == "g+s" then Some(GeckoSMoment)
    else if tok == "g" then Some(Gecko)
    else if tok == "s" then Some(SMoment)
    else if tok == "n" then Some(NoEnzyme)
    else None
  }

  /** GECKO regimes give each catalysed reaction its own enzyme place E_r_d. */
  predicate UsesEnzymePlaces(reg: Regime) {
    reg == GeckoSMoment || reg == Gecko
  }

  /** sMOMENT regimes bound each catalysed reaction by the shared enzyme pool E_total. */
  predicate UsesPool(reg: Regime) {
    reg == GeckoSMoment || reg == SMoment
  }

  /** Direction of a lowered reaction: reaction r becomes transitions t_r_f and t_r_b. */
  datatype Dir = Fwd | Bwd

  function Opposite(d: Dir): Dir {
    if d == Fwd then Bwd else Fwd
  }

  function Suffix(d: Dir): string {
    if d == Fwd then "_f" else "_b"
  }

  /** The key prefix + r + "_f" or prefix + r + "_b" the script builds by concatenation. */
  function Name(prefix: string, r: string, d: Dir): string {
    prefix + r + Suffix(d)
  }

  function PlaceName(r: string, d: Dir): string { Name("E_", r, d) }
  function HandlerName(r: string, d: Dir): string { Name("s_", r, d) }
  function TransName(r: string, d: Dir): string { Name("t_", r, d) }

  /** The total-enzyme place and its initial marking (g gDW-1). */
  const TotalEnzyme: string := "E_total"
  const P: real := 0.01067

  /** The transitions of the growth, glucose-uptake and product-exchange reactions. */
  const GrowthTrans: string := "t_BIOMASS_BS_10_f"
  const UptakeTrans: string := "t_EX_glc__D_e_b"
  const ProductTrans: string := "t_EX_scino_f"

  /** The direction that carries the enzyme: backward for bcat, forward otherwise. */
  function Catalysed(typ: Typ): (d: Dir)
    ensures d == Bwd <==> typ == Bcat
  {
    if typ == Bcat then Bwd else Fwd
  }

  /** The direction lock of an entry: the non-catalysed direction of a reversible reaction
      has its flow fixed to zero. */
  function Lock(r: string, typ: Typ): (lock: seq<Constraint>)
    ensures |lock| <= 1
    ensures lock != [] <==> typ == Fcat || typ == Bcat
    ensures lock != [] ==> lock[0] == L0Eq(TransName(r, Opposite(Catalysed(typ))), 0.0)
  {
    match typ
    case Fcat => [L0Eq(TransName(r, Bwd), 0.0)]
    case Bcat => [L0Eq(TransName(r, Fwd), 0.0)]
    case _ => []
  }

  /** The arcs of the handler of reaction r in direction d: e from its enzyme place (GECKO),
      r to its transition, p from the total-enzyme place (sMOMENT). */
  function HandlerArcs(r: string, d: Dir, reg: Regime): map<string, Arc>
    requires reg != NoEnzyme
  {
    var place, handler, trans := PlaceName(r, d), HandlerName(r, d), TransName(r, d);
    match reg
    case GeckoSMoment =>
      map["e" := Arc(place, handler), "r" := Arc(handler, trans), "p" := Arc(TotalEnzyme, handler)]
    case Gecko => map["e" := Arc(place, handler), "r" := Arc(handler, trans)]
    case SMoment => map["r" := Arc(handler, trans), "p" := Arc(TotalEnzyme, handler)]
  }

  /** The GECKO capacity bound of an entry: r <= kcat*ea, or r >= kcat*ea for a pathway entry. */
  function Capacity(e: Entry): (c: Constraint)
    ensures c.RGeKcatEa? <==> e.typ == Scillo
    ensures c.RLeKcatEa? <==> e.typ != Scillo
    ensures c.kcat == e.kcat && c.ea == e.ea
  {
    if e.typ == Scillo then RGeKcatEa(e.kcat, e.ea) else RLeKcatEa(e.kcat, e.ea)
  }

  /** The rate constraints of the handler: the GECKO capacity bound first, in g+s and g, then
      the sMOMENT pool bound kcat*p/mw, in g+s and s. */
  function RateConstraints(e: Entry, reg: Regime): seq<Constraint>
    requires reg != NoEnzyme
  {
    var capacity := Capacity(e);
    var pool := RLeKcatPOverMw(e.kcat, e.mw);
    match reg
    case GeckoSMoment => [capacity, pool]
    case Gecko => [capacity]
    case SMoment => [pool]
  }

  function HandlerFor(r: string, e: Entry, reg: Regime): Handler
    requires reg != NoEnzyme
  {
    Handler(HandlerArcs(r, Catalysed(e.typ), reg), RateConstraints(e, reg))
  }

  /** One pass of the regime's loop body over entry (r, e). The enzyme place is written
      before the transition is looked up, so a missing transition leaves it written. */
  function ApplyEntry(net: Net, r: string, e: Entry, reg: Regime): Run
    requires reg != NoEnzyme
  {
    var d := Catalysed(e.typ);
    var t := TransName(r, d);
    var placed := if UsesEnzymePlaces(reg) then net.(places := net.places[PlaceName(r, d) := e.ea]) else net;
    if t !in net.trans then Run(placed, MissingTransition(t))
    else
      Run(placed.(trans := net.trans[t := net.trans[t].(l0 := Some(0.0))],
                  shandlers := net.shandlers[HandlerName(r, d) := HandlerFor(r, e, reg)],
                  extracons := net.extracons + Lock(r, e.typ)),
          Ok)
  }

  /** The regime's loop over the catalogue, in order, stopping at the first failure. */
  function Loop(net: Net, cat: seq<(string, Entry)>, reg: Regime): Run
    requires reg != NoEnzyme
    decreases |cat|
  {
    if cat == [] then Run(net, Ok)
    else
      var step := ApplyEntry(net, cat[0].0, cat[0].1, reg);
      if step.outcome != Ok then step else Loop(step.net, cat[1..], reg)
  }

  /** The two global constraints, in order: fixed growth rate, bounded glucose uptake. */
  function GlobalCons(growth: real, bound: real): seq<Constraint> {
    [L0Eq(GrowthTrans, growth), L0Le(UptakeTrans, bound)]
  }

  /** The whole builder: reset handlers and extra constraints, set the total-enzyme place,
      dispatch on the regime token, then set the objective and the global constraints. */
  function Build(net: Net, cat: seq<(string, Entry)>, tok: string, growth: real, bound: real): Run {
    var start := net.(shandlers := map[], extracons := [], places := net.places[TotalEnzyme := P]);
    match ParseRegime(tok)
    case None => Run(start, InvalidRegime)
    case Some(reg) =>
      var run := if reg == NoEnzyme then Run(start, Ok) else Loop(start, cat, reg);
      if run.outcome != Ok then run
      else Run(run.net.(obj := Some(Maximize(ProductTrans)),
                        extracons := run.net.extracons + GlobalCons(growth, bound)), Ok)
  }

  /** All direction locks of a catalogue, in catalogue order. */
  function Locks(cat: seq<(string, Entry)>): seq<Constraint> {
    if cat == [] then [] else Lock(cat[0].0, cat[0].1.typ) + Locks(cat[1..])
  }

  /** The transition, handler and enzyme place the script builds for a catalogue entry. */
  function CatTrans(x: (string, Entry)): string { TransName(x.0, Catalysed(x.1.typ)) }
  function CatHandler(x: (string, Entry)): string { HandlerName(x.0, Catalysed(x.1.typ)) }
  function CatPlace(x: (string, Entry)): string { PlaceName(x.0, Catalysed(x.1.typ)) }

  /** Every transition some entry of the catalogue subscripts is in the net. */
  predicate AllTransitionsPresent(net: Net, cat: seq<(string, Entry)>) {
    forall i :: 0 <= i < |cat| ==> CatTrans(cat[i]) in net.trans
  }
}
