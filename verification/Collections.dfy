/** The collections a file belongs to, under add-file and delete-file jobs. */
module Collections {
  import opened Wrappers
  import opened Ordering

  const REMOVED := 1
  const DEFAULT := 2

  datatype Membership = Membership(collection: int, file: int)

  predicate InAny(rows: seq<Membership>, f: int) {
    exists r :: r in rows && r.file == f
  }

  predicate InOther(rows: seq<Membership>, c: int, f: int) {
    exists r :: r in rows && r.file == f && r.collection != c
  }

  /** The file has a collection, and is in the removed collection exactly when it is in no
      other. */
  ghost predicate FileOk(rows: seq<Membership>, f: int) {
    && InAny(rows, f)
    && (Membership(REMOVED, f) in rows <==> !InOther(rows, REMOVED, f))
  }

  /** The keys of the table hold and every existing file is in order. */
  ghost predicate RowsOk(rows: seq<Membership>, files: set<int>) {
    && Distinct(rows)
    && (forall r :: r in rows ==> r.file in files)
    && (forall f :: f in files ==> FileOk(rows, f))
  }

  /** The two tables agree on every file but one. */
  ghost predicate OnlyFile(before: seq<Membership>, after: seq<Membership>, f: int) {
    forall r: Membership :: r.file != f ==> (r in before <==> r in after)
  }

  /** The row is one of those that a deletion from one collection, or from all, picks. */
  predicate Picked(r: Membership, c: Option<int>, f: int) {
    r.file == f && (c.None? || r.collection == c.value)
  }

  function DeleteRows(rows: seq<Membership>, c: Option<int>, f: int): seq<Membership> {
    if rows == [] then []
    else
      var r := rows[|rows| - 1];
      DeleteRows(rows[..|rows| - 1], c, f) + if Picked(r, c, f) then [] else [r]
  }

  lemma {:induction false} DeleteRowsMembers(rows: seq<Membership>, c: Option<int>, f: int)
    ensures forall r :: r in DeleteRows(rows, c, f) <==> r in rows && !Picked(r, c, f)
    ensures Distinct(rows) ==> Distinct(DeleteRows(rows, c, f))
    ensures |DeleteRows(rows, c, f)| <= |rows|
  {
    if rows != [] {
      var init, last := rows[..|rows| - 1], rows[|rows| - 1];
      DeleteRowsMembers(init, c, f);
      assert rows == init + [last];
      if Distinct(rows) {
        assert last !in init;
      }
    }
  }

  /** The primary key lets a deletion from one collection affect at most one row. */
  lemma {:induction false} DeleteOneRow(rows: seq<Membership>, c: int, f: int)
    requires Distinct(rows)
    ensures |rows| - |DeleteRows(rows, Some(c), f)| == if Membership(c, f) in rows then 1 else 0
  {
    if rows != [] {
      var init, last := rows[..|rows| - 1], rows[|rows| - 1];
      DeleteOneRow(init, c, f);
      assert rows == init + [last];
      assert last !in init;
    }
  }

  /** Files whose rows are untouched stay in order. */
  lemma OthersUntouched(before: seq<Membership>, after: seq<Membership>, f: int, files: set<int>)
    requires RowsOk(before, files) && OnlyFile(before, after, f)
    requires Distinct(after) && FileOk(after, f)
    ensures RowsOk(after, files + {f})
  {
    forall r | r in after ensures r.file in files + {f} {
      if r.file != f {
        assert r in before;
      }
    }
    forall g | g in files && g != f ensures FileOk(after, g) {
      assert FileOk(before, g);
      assert forall r :: r in before && r.file == g ==> r in after;
    }
  }

  /** Dropping the removed mapping of a file that has another collection leaves it in order. */
  lemma RemovedDropped(rows: seq<Membership>, after: seq<Membership>, f: int)
    requires Membership(DEFAULT, f) in rows
    requires after == DeleteRows(rows, Some(REMOVED), f)
    ensures InOther(rows, REMOVED, f)
    ensures OnlyFile(rows, after, f) && FileOk(after, f)
    ensures forall r :: r in after <==> r in rows && r != Membership(REMOVED, f)
  {
    DeleteRowsMembers(rows, Some(REMOVED), f);
    assert Membership(DEFAULT, f) in after;
  }

  /** A deletion followed by the insertion of the removed mapping when nothing is left puts
      the file in order again. */
  lemma DeletionLeavesOrder(rows: seq<Membership>, c: Option<int>, f: int, after: seq<Membership>)
    requires FileOk(rows, f) && Distinct(rows)
    requires var rest := DeleteRows(rows, c, f);
      after == if Membership(REMOVED, f) in rest || InAny(rest, f) then rest else rest + [Membership(REMOVED, f)]
    ensures FileOk(after, f) && Distinct(after) && OnlyFile(rows, after, f)
  {
    var rest := DeleteRows(rows, c, f);
    DeleteRowsMembers(rows, c, f);
    if InAny(rest, f) {
      if Membership(REMOVED, f) in rows {
        assert forall r :: r in rest && r.file == f ==> r.collection == REMOVED;
        var r :| r in rest && r.file == f;
        assert r == Membership(REMOVED, f);
      } else {
        var r :| r in rest && r.file == f;
        assert InOther(rest, REMOVED, f);
      }
    } else {
      assert Membership(REMOVED, f) in after;
    }
  }

  class CollectionFiles {
    var rows: seq<Membership>

    constructor ()
      ensures rows == []
    {
      rows := [];
    }

    method EnsureCollectionFile(c: int, f: int)
      modifies this
      ensures rows == if Membership(c, f) in old(rows) then old(rows) else old(rows) + [Membership(c, f)]
    {
      if Membership(c, f) !in rows {
        rows := rows + [Membership(c, f)];
      }
    }

    method EnsureReserved(c: int, onlyIfNoOther: bool, f: int)
      modifies this
      ensures rows == if Membership(c, f) in old(rows) || (onlyIfNoOther && InAny(old(rows), f)) then old(rows)
                      else old(rows) + [Membership(c, f)]
    {
      if Membership(c, f) !in rows {
        var insertIt := true;
        if onlyIfNoOther {
          insertIt := !InAny(rows, f);
        }
        if insertIt {
          rows := rows + [Membership(c, f)];
        }
      }
    }

    /** Drops the removed mapping of a file that is in another collection; at most one row
        is affected. */
    method RemoveFromRemovedIfNecessary(f: int) returns (affected: nat)
      requires Distinct(rows)
      modifies this
      ensures rows == if InOther(old(rows), REMOVED, f) then DeleteRows(old(rows), Some(REMOVED), f) else old(rows)
      ensures affected == if InOther(old(rows), REMOVED, f) && Membership(REMOVED, f) in old(rows) then 1 else 0
    {
      affected := 0;
      if InOther(rows, REMOVED, f) {
        var rows' := DeleteRows(rows, Some(REMOVED), f);
        DeleteOneRow(rows, REMOVED, f);
        affected := |rows| - |rows'|;
        rows := rows';
      }
    }

    /** The collection part of an add-file job: the file gains the default collection and the
        named one, keeps those it had, and is never left in the removed collection. */
    method FileAdded(named: Option<int>, f: int, ghost files: set<int>) returns (affected: nat)
      requires RowsOk(rows, files)
      modifies this
      ensures RowsOk(rows, files + {f}) && OnlyFile(old(rows), rows, f)
      ensures forall c :: Membership(c, f) in rows <==>
        c != REMOVED && (Membership(c, f) in old(rows) || c == DEFAULT || named == Some(c))
      ensures affected <= 1
    {
      hide DeleteRows, FileOk, InOther;
      if named.Some? {
        EnsureCollectionFile(named.value, f);
      }
      EnsureReserved(DEFAULT, false, f);
      ghost var before := rows;
      assert OnlyFile(old(rows), before, f) && Distinct(before);
      RemovedDropped(rows, DeleteRows(rows, Some(REMOVED), f), f);
      DeleteRowsMembers(rows, Some(REMOVED), f);
      affected := RemoveFromRemovedIfNecessary(f);
      OthersUntouched(old(rows), rows, f, files);
    }

    /** The collection part of a delete-file job, for one collection or for all: what was
        named is gone, and a file left with nothing falls into the removed collection. */
    method FileDeleted(c: Option<int>, f: int, ghost files: set<int>)
      requires RowsOk(rows, files) && f in files
      modifies this
      ensures RowsOk(rows, files) && OnlyFile(old(rows), rows, f)
      ensures forall d :: d != REMOVED ==>
        (Membership(d, f) in rows <==> Membership(d, f) in old(rows) && c.Some? && c.value != d)
    {
      hide FileOk, InOther, DeleteRows, InAny, OnlyFile;
      DeleteRowsMembers(rows, c, f);
      rows := DeleteRows(rows, c, f);
      EnsureReserved(REMOVED, true, f);
      DeletionLeavesOrder(old(rows), c, f, rows);
      OthersUntouched(old(rows), rows, f, files);
      assert files + {f} == files;
    }
  }
}
