/** The static table of enzyme-catalysed reactions and their kinetic parameters. */
module Catalogue {

  /** Kinetic type of a catalogue entry. */
  datatype Typ =
    | Fonly   // irreversible, forward only
    | Fcat    // reversible, catalysed in the forward direction
    | Bcat    // reversible, catalysed in the backward direction
    | Scillo  // a reaction of the scyllo-inositol synthesis pathway

  /** kcat (h-1), enzyme abundance ea (mmol gDW-1) and molecular weight mw (kDa),
      kept as opaque reals: the builder only copies them into constraints. */
  datatype Entry = Entry(typ: Typ, kcat: real, ea: real, mw: real)

  /** The catalogue, in the order the script iterates over it. */
  const Rxns: seq<(string, Entry)> := [
    ("G6PDH2r",         Entry(Fonly,  626400.0,   0.00000805,  58.0)),
    ("CS",              Entry(Fonly,  176400.0,   0.0000251,   42.0)),
    ("GAPD",            Entry(Fonly,  252000.0,   0.0000577,   35.0)),
    ("OXADC",           Entry(Fonly,  212400.0,   0.000000621, 43.0)),
    ("OXGDC",           Entry(Fonly,  720.0,      0.000000068, 63.92)),
    ("PGI",             Entry(Fcat,   453600.0,   0.0000155,   61.53)),
    ("TPI",             Entry(Fcat,   540000.0,   0.0000128,   26.97)),
    ("PGK",             Entry(Bcat,   1184400.0,  0.000036,    41.12)),
    ("PGM",             Entry(Bcat,   2757240.0,  0.00000885,  74.0)),
    ("ENO",             Entry(Fcat,   469430.0,   0.0000317,   46.58)),
    ("ICDHyr",          Entry(Fcat,   295200.0,   0.00011,     46.0)),
    ("FUM",             Entry(Fcat,   614988.0,   0.00000729,  50.0)),
    ("LDH_L",           Entry(Fcat,   23099976.0, 0.0000036,   35.0)),
    ("PGCD",            Entry(Fcat,   52416.0,    0.000019,    56.0)),
    ("MCITL2",          Entry(Fcat,   68400.0,    0.000000068, 32.0)),
    ("PTAr",            Entry(Fcat,   2345760.0,  0.00000849,  34.0)),
    ("MDH",             Entry(Fcat,   637560.0,   0.000106,    33.0)),
    ("MI1PP",           Entry(Scillo, 23400.0,    0.00000106,  29.61)),
    ("INS2D",           Entry(Scillo, 78624.0,    0.00000318,  38.2)),
    ("scino_synthesis", Entry(Scillo, 304668.0,   0.00000208,  39.95))
  ]

  /** A dictionary has one entry per key: no reaction name occurs twice. */
  ghost predicate DistinctNames(cat: seq<(string, Entry)>) {
    forall i, j :: 0 <= i < j < |cat| ==> cat[i].0 != cat[j].0
  }

  /** Number of entries of kinetic type typ. */
  function Count(cat: seq<(string, Entry)>, typ: Typ): (n: nat)
    ensures n <= |cat|
    ensures n == 0 <==> forall i :: 0 <= i < |cat| ==> cat[i].1.typ != typ
  {
    if cat == [] then 0 else (if cat[0].1.typ == typ then 1 else 0) + Count(cat[1..], typ)
  }

  /** The catalogue's reaction names, in order: a second copy of the names of Rxns, kept only so
      that RxnsDistinct compares plain strings instead of unfolding the whole catalogue. */
  const RxnNames: seq<string> := [
    "G6PDH2r", "CS", "GAPD", "OXADC", "OXGDC", "PGI", "TPI", "PGK", "PGM", "ENO",
    "ICDHyr", "FUM", "LDH_L", "PGCD", "MCITL2", "PTAr", "MDH", "MI1PP", "INS2D", "scino_synthesis"
  ]

  lemma NamesAgree()
    ensures |RxnNames| == |Rxns|
    ensures forall i :: 0 <= i < |Rxns| ==> Rxns[i].0 == RxnNames[i]
  {
  }

  lemma NamesDistinct()
    ensures forall i, j :: 0 <= i < j < |RxnNames| ==> RxnNames[i] != RxnNames[j]
  {
  }

  /** The catalogue's reaction names are pairwise distinct, as dictionary keys are. */
  lemma RxnsDistinct()
    ensures DistinctNames(Rxns)
  {
    NamesAgree();
    NamesDistinct();
  }

}
