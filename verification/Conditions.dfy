/** The condition list carried by backup and restore objects. */
module Conditions {
  import opened Outcomes

  datatype Kind = Ready | InProgress | Other(name: string)
  datatype Status = True | False | Unknown
  datatype Condition = Condition(kind: Kind, status: Status, reason: string, message: string, time: nat)

  function NewReady(status: Status, reason: string, message: string, now: nat): Condition {
    Condition(Ready, status, reason, message, now)
  }

  function NewProgressing(status: Status, reason: string, message: string, now: nat): Condition {
    Condition(InProgress, status, reason, message, now)
  }

  /** Index of the first entry of a kind; the length of the list when there is none. */
  function First(cs: seq<Condition>, k: Kind): (i: nat)
    ensures i <= |cs|
    ensures i < |cs| ==> cs[i].kind == k
    ensures forall j | 0 <= j < i :: cs[j].kind != k
  {
    if cs == [] then 0
    else
      var before := First(cs[..|cs| - 1], k);
      if before < |cs| - 1 || cs[|cs| - 1].kind == k then before else |cs|
  }

  function StatusOf(cs: seq<Condition>, k: Kind): Option<Status> {
    var i := First(cs, k);
    if i < |cs| then Some(cs[i].status) else None
  }

  predicate SameReport(a: Condition, b: Condition) {
    a.status == b.status && a.reason == b.reason && a.message == b.message
  }

  /** The list after one report. */
  function Updated(cs: seq<Condition>, c: Condition): seq<Condition> {
    var i := First(cs, c.kind);
    if i == |cs| then cs + [c]
    else if SameReport(cs[i], c) then cs
    else cs[i := c]
  }

  /** Writes the first entry of the kind in place, or appends one. */
  method UpdateCondition(conditions: seq<Condition>, c: Condition) returns (result: seq<Condition>)
    ensures result == Updated(conditions, c)
  {
    result := conditions;
    var found := false;
    for i := 0 to |conditions|
      invariant result == conditions && !found
      invariant forall j | 0 <= j < i :: conditions[j].kind != c.kind
    {
      if result[i].kind == c.kind {
        if result[i].status != c.status || result[i].reason != c.reason || result[i].message != c.message {
          result := result[i := c];
        }
        found := true;
        break;
      }
    }
    if !found {
      result := result + [c];
    }
  }

  predicate AtMostOnce(cs: seq<Condition>, k: Kind) {
    forall i, j | 0 <= i < j < |cs| :: cs[i].kind == k ==> cs[j].kind != k
  }

  predicate ExactlyOnce(cs: seq<Condition>, k: Kind) {
    First(cs, k) < |cs| && AtMostOnce(cs, k)
  }

  /** A report is what a reader sees next, other kinds read as before, and no entry is duplicated. */
  lemma UpdatedReports(cs: seq<Condition>, c: Condition)
    ensures StatusOf(Updated(cs, c), c.kind) == Some(c.status)
    ensures forall k | k != c.kind :: StatusOf(Updated(cs, c), k) == StatusOf(cs, k)
    ensures AtMostOnce(cs, c.kind) ==> ExactlyOnce(Updated(cs, c), c.kind)
    ensures forall k | k != c.kind && AtMostOnce(cs, k) :: AtMostOnce(Updated(cs, c), k)
  {
    FirstIs(Updated(cs, c), c.kind, First(cs, c.kind));
    forall k | k != c.kind
      ensures StatusOf(Updated(cs, c), k) == StatusOf(cs, k)
    {
      OtherKindReadsAsBefore(cs, c, k);
    }
    UpdatedOnce(cs, c);
  }

  lemma OtherKindReadsAsBefore(cs: seq<Condition>, c: Condition, k: Kind)
    requires k != c.kind
    ensures StatusOf(Updated(cs, c), k) == StatusOf(cs, k)
  {
    var out, j := Updated(cs, c), First(cs, k);
    FirstIs(out, k, if j < |cs| then j else |out|);
  }

  lemma UpdatedOnce(cs: seq<Condition>, c: Condition)
    ensures forall k | AtMostOnce(cs, k) :: AtMostOnce(Updated(cs, c), k)
  {
  }

  /** The report is in the first entry of its kind; an entry that says the same already keeps its time, and no
      other entry is touched. */
  lemma UpdatedEntries(cs: seq<Condition>, c: Condition)
    ensures var out, i := Updated(cs, c), First(cs, c.kind);
      && |out| == (if i < |cs| then |cs| else |cs| + 1)
      && out[i].kind == c.kind && out[i].status == c.status && out[i].reason == c.reason && out[i].message == c.message
      && (forall j | 0 <= j < |cs| && j != i :: out[j] == cs[j])
      && (i < |cs| && SameReport(cs[i], c) ==> out == cs)
      && (i == |cs| || !SameReport(cs[i], c) ==> out[i].time == c.time)
  {
  }

  lemma FirstIs(cs: seq<Condition>, k: Kind, i: nat)
    requires i <= |cs|
    requires i < |cs| ==> cs[i].kind == k
    requires forall j | 0 <= j < i :: cs[j].kind != k
    ensures First(cs, k) == i
  {
  }

  /** Reporting progress and readiness together, as every writer does. */
  function Report(cs: seq<Condition>, progressing: Condition, ready: Condition): seq<Condition> {
    Updated(Updated(cs, progressing), ready)
  }

  /** The first entry of the kind says this. */
  predicate Says(cs: seq<Condition>, k: Kind, status: Status, reason: string, message: string) {
    var i := First(cs, k);
    i < |cs| && cs[i].status == status && cs[i].reason == reason && cs[i].message == message
  }

  lemma ReportSays(cs: seq<Condition>, progressing: Condition, ready: Condition)
    requires progressing.kind == InProgress && ready.kind == Ready
    ensures var out := Report(cs, progressing, ready);
      && Says(out, InProgress, progressing.status, progressing.reason, progressing.message)
      && Says(out, Ready, ready.status, ready.reason, ready.message)
  {
    var mid := Updated(cs, progressing);
    var i := First(cs, InProgress);
    UpdatedEntries(cs, progressing);
    FirstIs(mid, InProgress, i);
    UpdatedEntries(mid, ready);
    FirstIs(Report(cs, progressing, ready), InProgress, i);
    FirstIs(Report(cs, progressing, ready), Ready, First(mid, Ready));
  }

  lemma ReportReads(cs: seq<Condition>, progressing: Condition, ready: Condition)
    requires progressing.kind == InProgress && ready.kind == Ready
    ensures StatusOf(Report(cs, progressing, ready), Ready) == Some(ready.status)
    ensures StatusOf(Report(cs, progressing, ready), InProgress) == Some(progressing.status)
    ensures AtMostOnce(cs, Ready) && AtMostOnce(cs, InProgress) ==>
      ExactlyOnce(Report(cs, progressing, ready), Ready) && ExactlyOnce(Report(cs, progressing, ready), InProgress)
  {
    UpdatedReports(cs, progressing);
    UpdatedReports(Updated(cs, progressing), ready);
  }
}
