// Background healing (crawloop/engine.py, the scheduling half of `_trigger_loop`) under every
// interleaving of drift triggers, task completions and done-callbacks. A task finishes by
// returning, failing or being cancelled; each of its callbacks then runs once, some time later.
module Healing {

  datatype Task = Task(family: string, finished: bool, dropped: bool, cleared: bool)

  datatype State = State(inflight: set<string>, running: set<nat>, tasks: map<nat, Task>, next: nat)

  datatype Action =
    | Trigger(family: string)
    | Finish(id: nat)
    | DropTask(id: nat)
    | ClearFlag(id: nat)

  /** One atomic stretch of the event loop; an action that is not enabled changes nothing. */
  function Next(s: State, a: Action): State {
    match a
    case Trigger(f) =>
      if f in s.inflight then s
      else State(s.inflight + {f}, s.running + {s.next},
                 s.tasks[s.next := Task(f, false, false, false)], s.next + 1)
    case Finish(id) =>
      if id in s.tasks && !s.tasks[id].finished then
        s.(tasks := s.tasks[id := s.tasks[id].(finished := true)])
      else s
    case DropTask(id) =>
      if id in s.tasks && s.tasks[id].finished && !s.tasks[id].dropped then
        s.(running := s.running - {id}, tasks := s.tasks[id := s.tasks[id].(dropped := true)])
      else s
    case ClearFlag(id) =>
      if id in s.tasks && s.tasks[id].finished && !s.tasks[id].cleared then
        s.(inflight := s.inflight - {s.tasks[id].family}, tasks := s.tasks[id := s.tasks[id].(cleared := true)])
      else s
  }

  function Run(actions: seq<Action>): State {
    if actions == [] then State({}, {}, map[], 0)
    else Next(Run(actions[..|actions| - 1]), actions[|actions| - 1])
  }

  /** The task still holds its family's flag. */
  ghost predicate Holds(s: State, id: nat, family: string) {
    id in s.tasks && !s.tasks[id].cleared && s.tasks[id].family == family
  }

  ghost predicate Inv(s: State) {
    && (forall id :: id in s.tasks ==> id < s.next && (s.tasks[id].cleared ==> s.tasks[id].finished))
    && (forall id :: id in s.running <==> id in s.tasks && !s.tasks[id].dropped)
    && (forall id :: id in s.tasks && s.tasks[id].dropped ==> s.tasks[id].finished)
    && (forall f :: f in s.inflight <==> exists id :: Holds(s, id, f))
    && (forall i, j, f :: Holds(s, i, f) && Holds(s, j, f) ==> i == j)
  }

  lemma TriggerKeeps(s: State, f: string)
    requires Inv(s)
    ensures Inv(Next(s, Trigger(f)))
  {
    if f !in s.inflight {
      var s' := Next(s, Trigger(f));
      assert Holds(s', s.next, f);
      forall id, g ensures Holds(s', id, g) <==> Holds(s, id, g) || (id == s.next && g == f) {
      }
      forall g ensures g in s'.inflight <==> exists id :: Holds(s', id, g) {
        if g in s.inflight {
          var id :| Holds(s, id, g);
          assert Holds(s', id, g);
        }
      }
    }
  }

  lemma FlagsUnchanged(s: State, a: Action)
    requires Inv(s) && (a.Finish? || a.DropTask?)
    ensures Inv(Next(s, a))
  {
    var s' := Next(s, a);
    forall id, g ensures Holds(s', id, g) <==> Holds(s, id, g) {
    }
  }

  lemma ClearKeeps(s: State, id: nat)
    requires Inv(s)
    ensures Inv(Next(s, ClearFlag(id)))
    ensures id in s.tasks && s.tasks[id].finished && !s.tasks[id].cleared ==>
      s.tasks[id].family !in Next(s, ClearFlag(id)).inflight
  {
    var s' := Next(s, ClearFlag(id));
    if s' != s {
      var f := s.tasks[id].family;
      assert Holds(s, id, f);
      forall k, g ensures Holds(s', k, g) <==> Holds(s, k, g) && k != id {
      }
      forall g ensures g in s'.inflight <==> exists k :: Holds(s', k, g) {
        if g in s.inflight && g != f {
          var k :| Holds(s, k, g);
          assert Holds(s', k, g);
        }
      }
    }
  }

  lemma {:induction false} RunKeeps(actions: seq<Action>)
    ensures Inv(Run(actions))
  {
    if actions != [] {
      var n := |actions| - 1;
      RunKeeps(actions[..n]);
      var s := Run(actions[..n]);
      match actions[n]
      case Trigger(f) => TriggerKeeps(s, f);
      case Finish(_) => FlagsUnchanged(s, actions[n]);
      case DropTask(_) => FlagsUnchanged(s, actions[n]);
      case ClearFlag(id) => ClearKeeps(s, id);
    }
  }

  /** At every moment a family has at most one unfinished loop, and then its flag is up and the
      task is referenced. */
  lemma OneLoopPerFamily(actions: seq<Action>, i: nat, j: nat)
    requires var s := Run(actions);
      i in s.tasks && j in s.tasks && !s.tasks[i].finished && !s.tasks[j].finished
      && s.tasks[i].family == s.tasks[j].family
    ensures var s := Run(actions);
      i == j && s.tasks[i].family in s.inflight && i in s.running
  {
    RunKeeps(actions);
    var s := Run(actions);
    var f := s.tasks[i].family;
    assert Holds(s, i, f) && Holds(s, j, f);
  }

  /** A duplicate trigger is a no-op; after the callback has run, the next trigger schedules again. */
  lemma HealsAgain(actions: seq<Action>, id: nat)
    requires var s := Run(actions); id in s.tasks && s.tasks[id].finished && !s.tasks[id].cleared
    ensures var s := Run(actions); var f := s.tasks[id].family;
      && Next(s, Trigger(f)) == s
      && var after := Next(Next(s, ClearFlag(id)), Trigger(f));
         s.next in after.tasks && after.tasks[s.next] == Task(f, false, false, false)
  {
    RunKeeps(actions);
    var s := Run(actions);
    assert Holds(s, id, s.tasks[id].family);
    ClearKeeps(s, id);
  }
}
