/** Logging verbosity levels and the level filter of the telemetry root. */
module Telemetry {

  /** COMP is the curated competition set, DEBUG what is being worked on,
      TRACE everything. */
  datatype Level = Comp | Debug | Trace {
    function Priority(): int {
      match this
      case Comp => 1
      case Debug => 2
      case Trace => 3
    }

    /** A logger filtered at this level passes messages of `other`. */
    predicate Admit(other: Level) {
      Priority() >= other.Priority()
    }
  }

  /** Admit is a total order on levels: reflexive, transitive, and one of
      any two levels admits the other. */
  lemma AdmitIsTotalOrder(a: Level, b: Level, c: Level)
    ensures a.Admit(a)
    ensures a.Admit(b) && b.Admit(c) ==> a.Admit(c)
    ensures a.Admit(b) || b.Admit(a)
    ensures a.Admit(b) && b.Admit(a) ==> a == b
  {
  }

  /** TRACE admits every level; COMP admits only COMP. */
  lemma TraceAdmitsAllCompOnlyComp(other: Level)
    ensures Trace.Admit(other)
    ensures Comp.Admit(other) <==> other == Comp
  {
  }

  /** The part of the telemetry root the model keeps: its current level. */
  datatype Root = Root(level: Level)

  /** Until a level poller overrides it, the root passes everything. */
  function Initial(): (r: Root)
    ensures forall other: Level :: r.level.Admit(other)
  {
    Root(Trace)
  }

  function SetLevel(root: Root, level: Level): (r: Root)
    ensures forall other: Level :: r.level.Admit(other) <==> level.Admit(other)
    ensures r.level == level
  {
    root.(level := level)
  }

  /** Lowering the level to COMP silences DEBUG and TRACE messages, and
      raising it back readmits them. */
  lemma SetLevelFilters(root: Root)
    ensures !SetLevel(root, Comp).level.Admit(Debug)
    ensures !SetLevel(root, Comp).level.Admit(Trace)
    ensures SetLevel(SetLevel(root, Comp), Trace) == Initial()
  {
  }
}
