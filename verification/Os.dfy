/**
 The part of the operating system that a worker touches: the children of its temporary
 directory, the problems' test files, and the table of open descriptors.
 */
module Os {
  import opened Protocol

  datatype Option<+T> = None | Some(value: T)

  /** `Special` stands for every node that is neither a regular file nor a directory. */
  datatype Node =
    | File(content: seq<byte>)
    | Dir(entries: map<string, Node>)
    | Special

  datatype Errno = Success | EEXIST | OtherError

  /** What an open descriptor refers to. */
  datatype Target =
    | TestFile(path: string)
    | OutputFile(dir: string, name: string)

  /** `remove` succeeds on a regular file and on an empty directory. */
  predicate Removable(node: Node) {
    node.File? || node == Dir(map[]) || node.Special?
  }

  predicate PlainNames(entries: map<string, Node>) {
    "." !in entries && ".." !in entries
  }

  /** The `d_type` of a directory entry, for the two types that matter: DT_DIR is 4, DT_REG is 8. */
  function DType(entries: map<string, Node>, name: string): nat {
    if name == "." || name == ".." then 4
    else if name !in entries then 0
    else
      match entries[name]
      case File(_) => 8
      case Dir(_) => 4
      case Special => 0
  }

  /** Writing `data` from offset 0 into a file that is not truncated. */
  function Overlay(before: seq<byte>, data: seq<byte>): (r: seq<byte>)
    ensures |r| == if |data| >= |before| then |data| else |before|
    ensures r[..|data|] == data
    ensures forall i | |data| <= i < |r| :: r[i] == before[i]
  {
    if |data| >= |before| then data else data + before[|data|..]
  }

  /** `open` with O_CREAT succeeds in a directory, unless the name is taken by something else than a file. */
  predicate CanOpen(children: map<string, Node>, dir: string, name: string) {
    && dir in children && children[dir].Dir?
    && (name in children[dir].entries ==> children[dir].entries[name].File?)
  }

  /** The entries of the directory then: a new file is empty, an existing one keeps its contents. */
  function Touched(entries: map<string, Node>, name: string): (after: map<string, Node>)
    ensures name in entries ==> after == entries
    ensures name !in entries ==> after == entries[name := File([])]
  {
    if name in entries then entries else entries[name := File([])]
  }

  lemma {:induction false} Bound(s: set<nat>) returns (m: nat)
    ensures forall x | x in s :: x < m
  {
    m := 0;
    if s != {} {
      var x :| x in s;
      m := Bound(s - {x});
      assert forall y | y in s :: y == x || y in s - {x};
      if m <= x {
        m := x + 1;
      }
    }
  }

  class System {
    const tests: map<string, FileView>   // the problems' files, by path
    const canCreate: bool                // whether mkdir of a new name succeeds
    var tempExists: bool
    var children: map<string, Node>      // the temporary directory, by name
    var open: map<nat, Target>           // the descriptor table
    ghost var opens: nat
    ghost var closes: nat

    /** Every descriptor ever opened is closed or still open; no entry is called "." or "..". */
    ghost predicate Valid()
      reads this
    {
      && opens == closes + |open|
      && (!tempExists ==> children == map[])
      && (forall n | n in children && children[n].Dir? :: PlainNames(children[n].entries))
      && (forall fd | fd in open && open[fd].TestFile? :: open[fd].path in tests)
    }

    method MkdirTemp() returns (errno: Errno)
      requires Valid()
      modifies this`tempExists
      ensures Valid()
      ensures errno == if old(tempExists) then EEXIST else if canCreate then Success else OtherError
      ensures tempExists == (old(tempExists) || canCreate)
    {
      if tempExists {
        return EEXIST;
      }
      if !canCreate {
        return OtherError;
      }
      tempExists := true;
      return Success;
    }

    method Mkdir(name: string) returns (errno: Errno)
      requires Valid() && tempExists
      modifies this`children
      ensures Valid()
      ensures errno == if name in old(children) then EEXIST else if canCreate then Success else OtherError
      ensures children == if errno == Success then old(children)[name := Dir(map[])] else old(children)
    {
      if name in children {
        return EEXIST;
      }
      if !canCreate {
        return OtherError;
      }
      children := children[name := Dir(map[])];
      return Success;
    }

    /** Files and directories that another program leaves in a directory. */
    method Install(dir: string, nodes: map<string, Node>)
      requires Valid() && dir in children && children[dir].Dir? && PlainNames(nodes)
      modifies this`children
      ensures Valid()
      ensures children == old(children)[dir := Dir(old(children)[dir].entries + nodes)]
    {
      children := children[dir := Dir(children[dir].entries + nodes)];
    }

    /** Every entry of a directory, in any order, with "." and "..". */
    method ReadDir(dir: string) returns (listing: seq<string>)
      requires dir in children && children[dir].Dir?
      ensures forall name :: name in listing <==> name in children[dir].entries || name == "." || name == ".."
    {
      var rest := children[dir].entries.Keys + {".", ".."};
      listing := [];
      while rest != {}
        invariant rest <= children[dir].entries.Keys + {".", ".."}
        invariant forall name :: name in children[dir].entries.Keys + {".", ".."} <==> name in rest || name in listing
        decreases |rest|
      {
        var name :| name in rest;
        rest := rest - {name};
        listing := listing + [name];
      }
    }

    /** `remove` of one entry; it fails silently on what it cannot remove. */
    method RemoveEntry(dir: string, name: string)
      requires Valid() && dir in children && children[dir].Dir?
      modifies this`children
      ensures Valid()
      ensures var entries := old(children[dir].entries);
        children == old(children)[dir := Dir(
          if name in entries && (entries[name].Dir? ==> entries[name].entries == map[])
          then entries - {name} else entries)]
    {
      var entries := children[dir].entries;
      if name in entries && Removable(entries[name]) {
        children := children[dir := Dir(entries - {name})];
      } else {
        assert children == children[dir := Dir(entries)];
      }
    }

    /** `remove` of a child of the temporary directory. */
    method RemoveChild(dir: string)
      requires Valid() && dir in children
      modifies this`children
      ensures Valid()
      ensures children ==
        if old(children)[dir].Dir? && old(children)[dir].entries != map[] then old(children) else old(children) - {dir}
    {
      if Removable(children[dir]) {
        children := children - {dir};
      }
    }

    /** A descriptor that is not in use; the kernel may hand out one that was closed before. */
    method Allocate(target: Target) returns (fd: nat)
      requires Valid() && (target.TestFile? ==> target.path in tests)
      modifies this`open, this`opens
      ensures Valid()
      ensures fd !in old(open) && open == old(open)[fd := target] && open.Keys == old(open.Keys) + {fd}
      ensures opens == old(opens) + 1
    {
      ghost var bound := Bound(open.Keys);
      assert bound !in open;
      fd :| fd !in open;
      assert open.Keys + {fd} == open[fd := target].Keys;
      open := open[fd := target];
      opens := opens + 1;
    }

    /** `open` for reading. */
    method OpenFile(path: string) returns (fd: Option<nat>)
      requires Valid()
      modifies this`open, this`opens
      ensures Valid()
      ensures fd.Some? <==> path in tests
      ensures fd.Some? ==>
        fd.value !in old(open) && open == old(open)[fd.value := TestFile(path)] && opens == old(opens) + 1
      ensures fd.Some? ==> open.Keys == old(open.Keys) + {fd.value}
      ensures fd.None? ==> open == old(open) && opens == old(opens)
    {
      if path !in tests {
        return None;
      }
      var n := Allocate(TestFile(path));
      return Some(n);
    }

    /** `open` with O_CREAT and O_RDWR: an existing file keeps its contents. */
    method CreateFile(dir: string, name: string) returns (fd: Option<nat>)
      requires Valid() && name != "." && name != ".."
      modifies this`open, this`opens, this`children
      ensures Valid()
      ensures fd.Some? <==>
        && dir in old(children) && old(children)[dir].Dir?
        && (name in old(children)[dir].entries ==> old(children)[dir].entries[name].File?)
      ensures fd.Some? ==>
        && fd.value !in old(open) && open == old(open)[fd.value := OutputFile(dir, name)] && opens == old(opens) + 1
        && open.Keys == old(open.Keys) + {fd.value}
        && children == old(children)[dir := Dir(Touched(old(children)[dir].entries, name))]
      ensures fd.None? ==> open == old(open) && opens == old(opens) && children == old(children)
    {
      if dir !in children || !children[dir].Dir? {
        return None;
      }
      var entries := children[dir].entries;
      if name in entries && !entries[name].File? {
        return None;
      }
      if name !in entries {
        children := children[dir := Dir(entries[name := File([])])];
      } else {
        assert children == children[dir := Dir(entries)];
      }
      var n := Allocate(OutputFile(dir, name));
      return Some(n);
    }

    /** `close`; closing a descriptor that is not open would be an error of the caller. */
    method Close(fd: nat)
      requires Valid() && fd in open
      modifies this`open, this`closes
      ensures Valid()
      ensures open == old(open) - {fd} && closes == old(closes) + 1
    {
      assert (open - {fd}).Keys == open.Keys - {fd};
      open := open - {fd};
      closes := closes + 1;
    }

    /** The descriptor refers to a user output file that exists. */
    predicate Writable(fd: nat)
      reads this
    {
      && fd in open && open[fd].OutputFile?
      && open[fd].dir in children && children[open[fd].dir].Dir?
      && open[fd].name in children[open[fd].dir].entries
      && children[open[fd].dir].entries[open[fd].name].File?
    }

    function Content(fd: nat): seq<byte>
      requires Writable(fd)
      reads this
    {
      children[open[fd].dir].entries[open[fd].name].content
    }

    /** The child's writes to a descriptor that was opened just before. */
    method Write(fd: nat, data: seq<byte>)
      requires Valid() && Writable(fd)
      modifies this`children
      ensures Valid() && Writable(fd)
      ensures Content(fd) == Overlay(old(Content(fd)), data)
      ensures var t := open[fd];
        children == old(children)[t.dir := Dir(old(children)[t.dir].entries[t.name := File(Content(fd))])]
    {
      var t := open[fd];
      children := children[t.dir := Dir(children[t.dir].entries[t.name := File(Overlay(Content(fd), data))])];
    }
  }
}
