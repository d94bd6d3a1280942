/** The one-shot scan of a chat stream (scanStream in internal/chat/chat.go): its
    callback is mutex-gated, so each message is one atomic call of OnMessage. */
module StreamScan {
  import opened Sorting

  /** An envelope; undecodable messages have an empty thread. */
  datatype Envelope = Envelope(thread: string, body: string)

  function InThread(t: string): Envelope -> bool { (e: Envelope) => e.thread == t }

  /** The messages grouped by thread, in order; those without a thread are left out. */
  ghost predicate Grouped(out: map<string, seq<Envelope>>, messages: seq<Envelope>) {
    && (forall t :: t in out <==> t != "" && Filter(messages, InThread(t)) != [])
    && forall t | t in out :: out[t] == Filter(messages, InThread(t))
  }

  class Scan {
    const target: nat
    var out: map<string, seq<Envelope>>
    var seen: nat
    /** Whether doneOnce has fired, and how often `done` has been closed. */
    var onceFired: bool
    var doneCloses: nat
    ghost var delivered: seq<Envelope>

    ghost predicate Valid()
      reads this
    {
      && seen == |delivered| && Grouped(out, delivered)
      && onceFired == (seen >= target > 0) && doneCloses == (if onceFired then 1 else 0)
    }

    constructor (target: nat)
      ensures Valid() && delivered == [] && this.target == target
    {
      this.target := target;
      out, seen, onceFired, doneCloses, delivered := map[], 0, false, 0, [];
    }

    /** The callback: `done` is closed exactly once, by the message that reaches the
        target, and late messages neither close it again nor get lost. */
    method OnMessage(env: Envelope)
      requires Valid() && target > 0
      modifies this
      ensures Valid() && delivered == old(delivered) + [env]
      ensures doneCloses == 1 <==> |delivered| >= target
    {
      Regroup(out, delivered, env);
      if env.thread != "" {
        out := out[env.thread := (if env.thread in out then out[env.thread] else []) + [env]];
      }
      seen := seen + 1;
      delivered := delivered + [env];
      if seen >= target && !onceFired {
        onceFired := true;
        doneCloses := doneCloses + 1;
      }
    }

    /** What the scan returns: all that has arrived, under its thread and in order,
        and at least the target unless the scan was cancelled. */
    method Result(cancelled: bool) returns (groups: map<string, seq<Envelope>>)
      requires Valid() && (target == 0 || doneCloses > 0 || cancelled)
      ensures !cancelled ==> |delivered| >= target
      ensures Grouped(groups, delivered)
      ensures forall e | e in delivered && e.thread != "" :: e.thread in groups && e in groups[e.thread]
      ensures forall t, e | t in groups && e in groups[t] :: e.thread == t && e in delivered
    {
      groups := out;
      forall t, e ensures t in groups ==> (e in groups[t] <==> e in delivered && e.thread == t) {
        FilterMember(delivered, InThread(t), e);
      }
      forall e | e in delivered && e.thread != "" ensures e.thread in groups {
        FilterMember(delivered, InThread(e.thread), e);
      }
    }
  }

  /** Appending a message to its group keeps the grouping. */
  lemma Regroup(out: map<string, seq<Envelope>>, messages: seq<Envelope>, env: Envelope)
    requires Grouped(out, messages)
    ensures var out' := if env.thread == "" then out
      else out[env.thread := (if env.thread in out then out[env.thread] else []) + [env]];
      Grouped(out', messages + [env])
  {
    forall t ensures Filter(messages + [env], InThread(t)) == Filter(messages, InThread(t)) + if env.thread == t
      then [env] else [] {
      FilterAppend(messages, [env], InThread(t));
    }
  }
}
