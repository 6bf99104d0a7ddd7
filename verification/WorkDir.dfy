/** What `removeDir` and the retry loop of `buildEnv` do to a work directory (judgeworker.cc). */
module WorkDir {
  import opened Os

  /**
   The entries that `removeDir` deletes: regular files and empty directories.  It does not descend,
   and it skips every other type of node.
   */
  predicate Swept(node: Node) {
    node.File? || node == Dir(map[])
  }

  function Survivors(entries: map<string, Node>): (rest: map<string, Node>)
    ensures forall n :: n in rest <==> n in entries && !Swept(entries[n])
    ensures forall n | n in rest :: rest[n] == entries[n]
  {
    map n | n in entries && !Swept(entries[n]) :: entries[n]
  }

  /** What is left of a directory once the entries in `seen` have been visited. */
  function Left(entries: map<string, Node>, seen: seq<string>): map<string, Node> {
    map n | n in entries && (n !in seen || !Swept(entries[n])) :: entries[n]
  }

  lemma LeftStep(entries: map<string, Node>, seen: seq<string>, name: string)
    ensures Left(entries, seen + [name]) ==
      if name in Left(entries, seen) && Swept(entries[name]) then Left(entries, seen) - {name} else Left(entries, seen)
  {
    forall n ensures n in seen + [name] <==> n in seen || n == name {
    }
  }

  lemma LeftEnds(entries: map<string, Node>, listing: seq<string>)
    requires forall n | n in entries :: n in listing
    ensures Left(entries, []) == entries && Left(entries, listing) == Survivors(entries)
  {
  }

  /** The directory goes away exactly when this holds. */
  ghost predicate Clearable(entries: map<string, Node>) {
    forall n | n in entries :: Swept(entries[n])
  }

  lemma ClearableIff(entries: map<string, Node>)
    ensures Clearable(entries) <==> Survivors(entries) == map[]
  {
    if !Clearable(entries) {
      var n :| n in entries && !Swept(entries[n]);
      assert n in Survivors(entries);
    }
  }

  /** A second sweep finds nothing more to delete. */
  lemma SweepIsIdempotent(entries: map<string, Node>)
    ensures Survivors(Survivors(entries)) == Survivors(entries)
  {
  }

  /** The temporary directory after one `removeDir` of its child `name`. */
  function AfterSweep(children: map<string, Node>, name: string): map<string, Node>
    requires name in children && children[name].Dir?
  {
    var rest := Survivors(children[name].entries);
    if rest == map[] then children - {name} else children[name := Dir(rest)]
  }

  /** Sweeping a directory that survived leaves the whole tree unchanged. */
  lemma SweepFixpoint(children: map<string, Node>, name: string)
    requires name in children && children[name].Dir? && !Clearable(children[name].entries)
    ensures var after := AfterSweep(children, name);
      && name in after && after[name].Dir?
      && !Clearable(after[name].entries)
      && AfterSweep(after, name) == after
  {
    ClearableIff(children[name].entries);
    SweepIsIdempotent(children[name].entries);
    var after := AfterSweep(children, name);
    ClearableIff(after[name].entries);
    assert after == after[name := Dir(after[name].entries)];
  }

  datatype Built =
    | Ready     // the work directory exists and is empty
    | Refused   // mkdir failed with another error
    | Aborted   // the old path is not a directory: the process exits
    | Spinning  // mkdir and removeDir alternate for ever

  /** The outcome of `buildEnv` for the work directory `name`. */
  function BuildSpec(tempExists: bool, canCreate: bool, children: map<string, Node>, name: string): Built {
    if !tempExists && !canCreate then Refused
    else if name !in children then if canCreate then Ready else Refused
    else if !children[name].Dir? then Aborted
    else if Survivors(children[name].entries) != map[] then Spinning
    else if canCreate then Ready
    else Refused
  }

  /** `buildEnv` succeeds exactly on a path that is absent or an old directory it can clear. */
  lemma ReadyIff(tempExists: bool, children: map<string, Node>, name: string)
    ensures BuildSpec(tempExists, true, children, name) == Ready <==>
      (name in children ==> children[name].Dir? && Clearable(children[name].entries))
    ensures BuildSpec(tempExists, true, children, name) == Spinning <==>
      name in children && children[name].Dir? && !Clearable(children[name].entries)
  {
    if name in children && children[name].Dir? {
      ClearableIff(children[name].entries);
    }
  }

  // ---------- in terms of the files themselves ----------

  /** What `removeDir` cannot delete: a nonempty directory, or neither a file nor a directory. */
  ghost predicate Undeletable(entries: map<string, Node>, name: string) {
    name in entries && (entries[name].Special? || (entries[name].Dir? && entries[name].entries != map[]))
  }

  /** Exactly the undeletable entries survive, unchanged. */
  lemma SurvivorsAreUndeletable(entries: map<string, Node>, name: string)
    ensures name in Survivors(entries) <==> Undeletable(entries, name)
    ensures Undeletable(entries, name) ==> Survivors(entries)[name] == entries[name]
  {
  }

  lemma ClearableIsUnstuck(entries: map<string, Node>)
    ensures Clearable(entries) <==> forall name :: !Undeletable(entries, name)
  {
    if !Clearable(entries) {
      var n :| n in entries && !Swept(entries[n]);
      assert Undeletable(entries, n);
    }
    forall n | n in entries && !Undeletable(entries, n) ensures Swept(entries[n]) {
    }
  }

  /** A sweep of `name` leaves all else alone; it leaves a directory of the undeletable entries, or none. */
  lemma SweepLeaves(children: map<string, Node>, name: string)
    requires name in children && children[name].Dir?
    ensures var after, entries := AfterSweep(children, name), children[name].entries;
      && after - {name} == children - {name}
      && (name in after <==> exists n :: Undeletable(entries, n))
      && (name in after ==> after[name].Dir? && forall n ::
            (n in after[name].entries <==> Undeletable(entries, n)) &&
            (n in after[name].entries ==> after[name].entries[n] == entries[n]))
  {
    var entries := children[name].entries;
    ClearableIff(entries);
    ClearableIsUnstuck(entries);
    assert AfterSweep(children, name) - {name} == children - {name};
  }

  /** What `buildEnv` comes to, whether or not mkdir may create. */
  lemma BuildIff(tempExists: bool, canCreate: bool, children: map<string, Node>, name: string)
    ensures var built := BuildSpec(tempExists, canCreate, children, name);
      var stuck := name in children && children[name].Dir? && exists n :: Undeletable(children[name].entries, n);
      var foreign := name in children && !children[name].Dir?;
      && (built == Ready <==> canCreate && !stuck && !foreign)
      && (built == Spinning <==> (tempExists || canCreate) && stuck)
      && (built == Aborted <==> (tempExists || canCreate) && foreign)
      && (built == Refused <==> !canCreate && (tempExists ==> !stuck && !foreign))
  {
    if name in children && children[name].Dir? {
      ClearableIff(children[name].entries);
      ClearableIsUnstuck(children[name].entries);
    }
  }
}
