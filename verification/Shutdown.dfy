/** The end of the process: every alias gives up its share of its connection. */
module Shutdown {
  import opened Common
  import opened RegistryModel
  import opened RegistryInvariant
  import opened RegistryRuns
  import opened RegistrySequential

  /** The aliases among `done` that map to c. */
  function Seen(list: map<Alias, Option<RefId>>, done: set<Alias>, c: RefId): set<Alias> {
    set a | a in done && Target(list, a) == Some(c)
  }

  /** There is no alias of a block that is gone, and no block counts fewer entries than it has aliases. */
  ghost predicate Covered(list: map<Alias, Option<RefId>>, memory: map<RefId, Conn>) {
    && (forall a :: a in list && list[a].Some? ==> list[a].value in memory)
    && forall c :: c in memory ==> |Aliases(list, c)| <= memory[c].refHost
  }

  /** What the loop has made of one block after the aliases in `done`. */
  ghost predicate Reduced(list: map<Alias, Option<RefId>>, was: map<RefId, Conn>, done: set<Alias>,
                          memory: map<RefId, Conn>, freed: seq<RefId>, c: RefId)
  {
    var n := |Seen(list, done, c)|;
    && (c in memory <==> c in was && (n == 0 || n < was[c].refHost))
    && (c in memory ==> memory[c] == was[c].(refHost := was[c].refHost - n))
    && (c in freed <==> c in was && n > 0 && n == was[c].refHost)
  }

  predicate NoRepeats(freed: seq<RefId>) {
    forall i, j :: 0 <= i < j < |freed| ==> freed[i] != freed[j]
  }

  lemma {:induction false} SeenGrows(list: map<Alias, Option<RefId>>, done: set<Alias>, alias: Alias, c: RefId)
    requires alias !in done
    ensures |Seen(list, done + {alias}, c)| == |Seen(list, done, c)| + if Target(list, alias) == Some(c) then 1 else 0
  {
    assert Seen(list, done + {alias}, c) ==
           if Target(list, alias) == Some(c) then Seen(list, done, c) + {alias} else Seen(list, done, c);
  }

  lemma {:induction false} SubsetSize<T>(a: set<T>, b: set<T>)
    requires a <= b
    ensures |a| <= |b|
  {
    assert b == a + (b - a);
  }

  /** Before an alias gives up its share, the block is still there. */
  lemma {:induction false} StillLive(list: map<Alias, Option<RefId>>, was: map<RefId, Conn>, done: set<Alias>,
                                     memory: map<RefId, Conn>, freed: seq<RefId>, alias: Alias, c: RefId)
    requires Covered(list, was) && done <= list.Keys && alias in list && alias !in done && list[alias] == Some(c)
    requires Reduced(list, was, done, memory, freed, c)
    ensures c in memory && c !in freed && memory[c].refHost >= 1
  {
    SeenGrows(list, done, alias, c);
    SubsetSize(Seen(list, done + {alias}, c), Aliases(list, c));
  }

  /** The shutdown loop over the aliases, in whatever order the hash map yields them. */
  method ReleaseAliases(list: map<Alias, Option<RefId>>, was: map<RefId, Conn>)
    returns (memory: map<RefId, Conn>, freed: seq<RefId>)
    requires Covered(list, was)
    ensures NoRepeats(freed)
    ensures forall c :: Reduced(list, was, list.Keys, memory, freed, c)
  {
    memory, freed := was, [];
    var rest := list.Keys;
    while rest != {}
      invariant rest <= list.Keys && NoRepeats(freed)
      invariant forall c :: Reduced(list, was, list.Keys - rest, memory, freed, c)
    {
      var alias :| alias in rest;
      ghost var before, done := memory, list.Keys - rest;
      rest := rest - {alias};
      assert list.Keys - rest == done + {alias};
      if list[alias].Some? {
        var entry := list[alias].value;
        StillLive(list, was, done, memory, freed, alias, entry);
        ghost var freedBefore := freed;
        if memory[entry].refHost > 1 {
          memory := memory[entry := memory[entry].(refHost := memory[entry].refHost - 1)];
        } else {
          memory, freed := memory - {entry}, freed + [entry];
        }
        forall c ensures Reduced(list, was, done + {alias}, memory, freed, c) {
          assert Reduced(list, was, done, before, freedBefore, c);
          SeenGrows(list, done, alias, c);
        }
      } else {
        forall c ensures Reduced(list, was, done + {alias}, memory, freed, c) {
          assert Reduced(list, was, done, memory, freed, c);
          SeenGrows(list, done, alias, c);
        }
      }
    }
    assert list.Keys - rest == list.Keys;
  }

  lemma {:induction false} RegistryIsCovered(steps: seq<Step>)
    requires IsRun(EMPTY_STATE, steps)
    ensures Covered(Final(EMPTY_STATE, steps).list, Final(EMPTY_STATE, steps).heap)
  {
    InvInitially();
    InvOnRuns(EMPTY_STATE, steps);
    var s := Final(EMPTY_STATE, steps);
    forall c | c in s.heap ensures |Aliases(s.list, c)| <= s.heap[c].refHost {
      HostCountSlack(steps, c);
    }
  }

  /** The loop has been through the aliases of every block. */
  ghost predicate Released(s: State, memory: map<RefId, Conn>, freed: seq<RefId>) {
    forall c :: Reduced(s.list, s.heap, s.list.Keys, memory, freed, c)
  }

  /**
   * After any run, shutdown frees a connection exactly if its host counter equals its number of aliases and it has
   * one; between operations, exactly if it has one, never rewrote one of its own, and never lost one to another
   * connection. Every other connection stays allocated; if it has aliases, its counter is left at its slack.
   */
  lemma {:induction false} ShutdownFrees(steps: seq<Step>, memory: map<RefId, Conn>, freed: seq<RefId>, c: RefId)
    requires IsRun(EMPTY_STATE, steps) && c in Final(EMPTY_STATE, steps).heap
    requires Released(Final(EMPTY_STATE, steps), memory, freed)
    ensures var s := Final(EMPTY_STATE, steps);
            var slack := SelfHits(s.log, c) + Overwritten(s.log, c);
            && (c in freed <==> Aliases(s.list, c) != {} && s.heap[c].refHost == |Aliases(s.list, c)|)
            && (Quiet(s) ==> (c in freed <==> Aliases(s.list, c) != {} && slack == 0))
            && (Quiet(s) && c in memory && Aliases(s.list, c) != {} ==> memory[c].refHost == slack)
            && (c in memory <==> c !in freed)
  {
    hide Final, IsRun, SelfHits, Overwritten;
    HostCountSlack(steps, c);
    var s := Final(EMPTY_STATE, steps);
    assert Seen(s.list, s.list.Keys, c) == Aliases(s.list, c);
    assert Reduced(s.list, s.heap, s.list.Keys, memory, freed, c);
    if Aliases(s.list, c) != {} {
      var a :| a in Aliases(s.list, c);
      SubsetSize({a}, Aliases(s.list, c));
    }
  }

  /** With one-host configurations and operations that do not overlap, only private connections survive shutdown. */
  lemma {:induction false} OneHostShutdownFreesAll(steps: seq<Step>, memory: map<RefId, Conn>, freed: seq<RefId>,
                                                   c: RefId)
    requires IsRun(EMPTY_STATE, steps) && IsSequential(EMPTY_STATE, steps) && OneHost(steps)
    requires c in Final(EMPTY_STATE, steps).heap && Quiet(Final(EMPTY_STATE, steps))
    requires Released(Final(EMPTY_STATE, steps), memory, freed)
    ensures var s := Final(EMPTY_STATE, steps);
            c !in freed <==> exists o :: o in s.objs && !s.objs[o].persistent && s.objs[o].ref == Some(c)
  {
    hide Final, IsRun, SelfHits, Overwritten, IsSequential, Released;
    OneHostCountsAliases(steps, c);
    ShutdownFrees(steps, memory, freed, c);
  }
}
