/**
 The registry as it runs: shared journal objects with their own retirement and
 expiry cells, and a hostname map. Each method is proved to take the matching
 step of Registrations on the registry it models.
 */
module RegistryObjects {
  import opened Registrations

  /** Whether the journal was ever installed and whether its carrier ended are for the proof only. */
  class RegisteredJournal {
    const generation: nat
    const hostname: Hostname
    ghost var committed: bool
    var retired: bool
    ghost var gone: bool
    var expiry: nat

    constructor (generation: nat, hostname: Hostname, expiry: nat)
      ensures this.generation == generation && this.hostname == hostname && this.expiry == expiry
      ensures !committed && !retired && !gone
    {
      this.generation := generation;
      this.hostname := hostname;
      this.expiry := expiry;
      committed := false;
      retired := false;
      gone := false;
    }

    ghost predicate Is(j: Journal)
      reads this
    {
      hostname == j.hostname && committed == j.committed && retired == j.retired && gone == j.gone && expiry == j.expiry
    }

    method MarkRetired()
      modifies this`retired
      ensures retired
    {
      retired := true;
    }

    /** Compare-exchange on the expiry. */
    method ReplaceExpiryIf(expected: nat, replacement: nat) returns (ok: bool)
      modifies this`expiry
      ensures ok == (old(expiry) == expected)
      ensures expiry == if ok then replacement else old(expiry)
    {
      ok := expiry == expected;
      if ok {
        expiry := replacement;
      }
    }
  }

  class HostRegistry {
    var entries: map<Hostname, RegisteredJournal>
    var nextGeneration: nat
    ghost var all: seq<RegisteredJournal>

    /** These objects are in the state `r`. */
    ghost predicate Models(r: Registry)
      reads this, all
    {
      && nextGeneration == |all| == |r.journals|
      && (forall i :: 0 <= i < |all| ==> all[i].generation == i && all[i].Is(r.journals[i]))
      && entries.Keys == r.entries.Keys
      && (forall h :: h in entries ==> r.entries[h] < |all| && entries[h] == all[r.entries[h]])
    }

    constructor ()
      ensures Models(EMPTY)
    {
      entries := map[];
      nextGeneration := 0;
      all := [];
    }

    /** A candidate draws its generation before it is committed. */
    method NewCandidate(hostname: Hostname, expiry: nat, ghost r: Registry) returns (j: RegisteredJournal)
      requires Models(r)
      modifies this
      ensures Models(Next(r, Draw(hostname, expiry)))
      ensures fresh(j) && j.generation == |r.journals| && all == old(all) + [j]
    {
      j := new RegisteredJournal(nextGeneration, hostname, expiry);
      nextGeneration := nextGeneration + 1;
      all := all + [j];
    }

    /** The section under the write lock, once the deadline and expiry checks pass. */
    method CommitCandidate(j: RegisteredJournal, ghost r: Registry)
      requires Models(r) && j.generation < |all| && all[j.generation] == j && !j.committed
      modifies this, all
      ensures Models(Next(r, Commit(j.generation))) && all == old(all)
    {
      hide Models, RetireOne;
      ModelsJournal(j, r);
      RetireCurrent(j.hostname, r);
      ghost var r' := if j.hostname in r.entries then RetireOne(r, r.entries[j.hostname]) else r;
      RetireKeepsEntries(r, j.hostname);
      Place(j, r');
    }

    lemma ModelsJournal(j: RegisteredJournal, r: Registry)
      requires Models(r) && j.generation < |all| && all[j.generation] == j && !j.committed
      ensures j.generation < |r.journals| && j.hostname == r.journals[j.generation].hostname
              && !r.journals[j.generation].committed
    {
    }

    method Place(j: RegisteredJournal, ghost r: Registry)
      requires Models(r) && j.generation < |all| && all[j.generation] == j
      modifies this`entries, j`committed
      ensures j.generation < |r.journals|
      ensures Models(Registry(r.journals[j.generation := r.journals[j.generation].(committed := true)],
                              r.entries[j.hostname := j.generation], r.installs + [j.generation]))
    {
      entries := entries[j.hostname := j];
      j.committed := true;
    }

    method RetireCurrent(host: Hostname, ghost r: Registry)
      requires Models(r)
      modifies all
      ensures Models(if host in r.entries then RetireOne(r, r.entries[host]) else r)
      ensures forall i :: 0 <= i < |all| ==> all[i].committed == old(all[i].committed)
    {
      if host in entries {
        var displaced := entries[host];
        displaced.MarkRetired();
      }
    }

    /** A removal for a generation leaves any other registration alone. */
    method RemoveIf(hostname: Hostname, generation: nat, ghost r: Registry)
      requires Models(r)
      modifies this
      ensures Models(RemoveOne(r, hostname, generation)) && all == old(all)
    {
      if hostname in entries && entries[hostname].generation == generation {
        entries := entries - {hostname};
      }
    }

    method RetireUnresponsive(hostname: Hostname, j: RegisteredJournal, ghost r: Registry)
      requires Models(r) && j.generation < |all| && all[j.generation] == j
      modifies this, all
      ensures Models(Next(Next(r, Retire(j.generation)), RemoveIfCurrent(hostname, j.generation))) && all == old(all)
    {
      j.MarkRetired();
      assert Models(Next(r, Retire(j.generation)));
      RemoveIf(hostname, j.generation, Next(r, Retire(j.generation)));
    }

    /** Shutdown empties the map under the lock and hands back what was in it. */
    method TakeAll(ghost r: Registry) returns (taken: set<RegisteredJournal>)
      requires Models(r) && EntriesSound(r)
      modifies this
      ensures Models(Next(r, ShutdownAll)) && all == old(all)
      ensures forall g :: 0 <= g < |all| ==> (all[g] in taken <==> Current(r, g))
    {
      taken := entries.Values;
      entries := map[];
    }

    /** What shutdown's task does for each journal taken out. */
    method RetireTaken(j: RegisteredJournal, ghost r: Registry)
      requires Models(r) && j.generation < |all| && all[j.generation] == j && r.journals[j.generation].draining
      modifies all
      ensures Models(Next(r, RetireDrained(j.generation)))
    {
      j.MarkRetired();
    }
  }

  lemma RetireKeepsEntries(r: Registry, host: Hostname)
    ensures host in r.entries ==>
              var r' := RetireOne(r, r.entries[host]);
              r'.entries == r.entries && r'.installs == r.installs && |r'.journals| == |r.journals|
  {
  }
}
