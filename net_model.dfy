/** The parts of a Flexible-Net dictionary that the enzymatic-constraint builder reads or writes. */
module NetModel {

  datatype Option<T> = None | Some(value: T)

  /** An arc of a handler, from a place or handler to a handler or transition. */
  datatype Arc = Arc(src: string, dst: string)

  /** The symbolic constraints the builder writes. The first three are handler constraints over
      the handler's arc variables r (reaction rate) and p (total enzyme); the last two are extra
      constraints over the flow l0 of a named transition. */
  datatype Constraint =
    | RLeKcatEa(kcat: real, ea: real)       // r <= kcat*ea
    | RGeKcatEa(kcat: real, ea: real)       // r >= kcat*ea
    | RLeKcatPOverMw(kcat: real, mw: real)  // r <= kcat*p/mw
    | L0Eq(t: string, v: real)              // l0[t] == v
    | L0Le(t: string, v: real)              // l0[t] <= v

  /** A handler: its arcs keyed by variable name ("e", "r", "p") and its constraints. */
  datatype Handler = Handler(arcs: map<string, Arc>, cons: seq<Constraint>)

  /** A transition's attributes, as far as the builder touches them: its l0 entry. */
  datatype Transition = Transition(l0: Option<real>)

  /** The optimisation objective: maximise the flow of a transition. */
  datatype Objective = Maximize(t: string)

  /** The net: places with their initial marking, transitions, handlers, extra constraints
      (an ordered list) and the objective. */
  datatype Net = Net(
    places: map<string, real>,
    trans: map<string, Transition>,
    shandlers: map<string, Handler>,
    extracons: seq<Constraint>,
    obj: Option<Objective>)

  /** How a build ends: normally, at the exit on an unknown regime token, or at the failed
      subscript of a transition the net does not have. */
  datatype Outcome = Ok | InvalidRegime | MissingTransition(t: string)

  /** The net as the build leaves it, with the way the build ended. */
  datatype Run = Run(net: Net, outcome: Outcome)
}
