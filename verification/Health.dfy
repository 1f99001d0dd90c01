/** Telling which build a binary is by running it, and the check that an install took. */
module Health {
  import opened Files
  import opened Components

  /** How a build is told: running the binary, and the shared Install/Update/Skip decision. */
  datatype Evidence = Evidence(probe: Bytes -> DetectedVersion, decide: (DetectedVersion, string) -> UpdateAction)

  function Detect(ev: Evidence, t: Tree, p: Path): DetectedVersion {
    if p in t then ev.probe(t[p]) else Absent
  }

  /** The health check of one binary: something answers, and the decision for it is Skip. */
  predicate Healthy(ev: Evidence, t: Tree, p: Path, version: string) {
    Detect(ev, t, p) != Absent && ev.decide(Detect(ev, t, p), version) == Skip
  }

  /**
   What is relied on of the shared decision: a binary reporting the wanted version is current, nothing
   there is an install, and a present but unreadable version is an update.
   */
  ghost predicate LawfulDecide(ev: Evidence) {
    && (forall v :: ev.decide(Present(v), v) == Skip)
    && (forall v :: ev.decide(Absent, v) == Install)
    && (forall v :: v != "" ==> ev.decide(Present(""), v) == Update)
  }
}
