/** The worker's list of open files (protocol.h). */
module Files {
  import opened Os

  /** An open file; deleting it closes its descriptor. */
  datatype OpenedFile = OpenedFile(fd: nat)

  function Fds(files: seq<OpenedFile>): set<nat> {
    set f | f in files :: f.fd
  }

  ghost predicate Distinct(files: seq<OpenedFile>) {
    forall i, j | 0 <= i < j < |files| :: files[i].fd != files[j].fd
  }

  /** Distinct files hold as many descriptors as there are files. */
  lemma {:induction false} DistinctCount(files: seq<OpenedFile>)
    requires Distinct(files)
    ensures |Fds(files)| == |files|
  {
    if files != [] {
      var rest := files[..|files| - 1];
      var last := files[|files| - 1];
      DistinctCount(rest);
      assert Fds(files) == Fds(rest) + {last.fd} by {
        forall fd | fd in Fds(files) ensures fd in Fds(rest) + {last.fd} {
          var i :| 0 <= i < |files| && files[i].fd == fd;
          assert i == |rest| || rest[i].fd == fd;
        }
      }
      assert last.fd !in Fds(rest);
    }
  }

  /** The file at `i` holds a descriptor that no earlier file holds. */
  lemma FdsStep(files: seq<OpenedFile>, i: nat)
    requires i < |files| && Distinct(files)
    ensures files[i].fd in Fds(files) && files[i].fd !in Fds(files[..i])
    ensures Fds(files[..i + 1]) == Fds(files[..i]) + {files[i].fd}
  {
    assert files[i] in files;
    assert files[..i + 1] == files[..i] + [files[i]];
  }

  lemma CloseOneMore(open: map<nat, Target>, gone: set<nat>, fd: nat)
    ensures open - gone - {fd} == open - (gone + {fd})
  {
  }

  class FileManger {
    const os: System
    var files: seq<OpenedFile>
    var isClosed: bool

    /** The list's own state: the flag tells whether it is empty, and nothing is held twice. */
    ghost predicate Valid()
      reads this, os
    {
      && os.Valid()
      && (isClosed <==> files == [])
      && Distinct(files)
      && Fds(files) <= os.open.Keys
    }

    constructor (os: System)
      requires os.Valid()
      ensures Valid() && this.os == os && files == []
    {
      this.os := os;
      files := [];
      isClosed := true;
    }

    method PushBack(val: OpenedFile)
      requires Valid() && val.fd in os.open && val.fd !in Fds(files)
      modifies this
      ensures Valid() && files == old(files) + [val]
      ensures Fds(files) == Fds(old(files)) + {val.fd}
    {
      assert forall f | f in files :: f.fd in Fds(files);
      files := files + [val];
      isClosed := false;
    }

    /** Closes every file on the list, each once, and no other descriptor. */
    method CloseAll()
      requires Valid()
      modifies this, os`open, os`closes
      ensures Valid() && files == [] && isClosed
      ensures os.open == old(os.open) - Fds(old(files))
      ensures os.closes == old(os.closes) + |old(files)|
      ensures old(os.open.Keys == Fds(files)) ==> os.open == map[]
    {
      if !isClosed {
        DeleteEach();
        files := [];
        isClosed := true;
      } else {
        assert os.open == os.open - {};
      }
    }

    /** `delete` on every file of the list, in order. */
    method DeleteEach()
      requires Valid()
      modifies os`open, os`closes
      ensures os.Valid()
      ensures os.open == old(os.open) - Fds(files)
      ensures os.closes == old(os.closes) + |files|
    {
      var i := 0;
      ghost var done := {};
      while i < |files|
        invariant 0 <= i <= |files| && os.Valid()
        invariant done == Fds(files[..i]) && os.open == old(os.open) - done
        invariant os.closes == old(os.closes) + i
      {
        var fd := files[i].fd;
        FdsStep(files, i);
        os.Close(fd);
        CloseOneMore(old(os.open), done, fd);
        done := done + {fd};
        i := i + 1;
      }
      assert files[..i] == files;
    }

    /** The destructor closes what the list holds; the table is then empty if it held nothing else. */
    method Destroy()
      requires Valid()
      modifies this, os`open, os`closes
      ensures Valid() && files == []
      ensures os.open == old(os.open) - Fds(old(files))
      ensures os.closes == old(os.closes) + |old(files)|
      ensures old(os.open.Keys == Fds(files)) ==> os.open == map[] && os.opens == os.closes
    {
      CloseAll();
    }
  }
}
