/** The watchlist: a list of symbols kept in the page's local key-value
    storage under one key, read afresh for every operation and written
    back after every change. */
module Watchlist {
  import opened Wrappers

  /** What parsing the stored text yields: an array of symbols, or nothing
      usable (a parse error, or a value such as null that `|| []` replaces). */
  datatype Stored = Parsed(symbols: seq<string>) | Unparseable

  /** `getWatch`: the stored list, or the empty list when the entry is
      missing or unusable; reading never fails. */
  function Read(cell: Option<Stored>): (r: seq<string>)
    ensures cell == Some(Parsed(r)) || r == []
    ensures forall s :: cell == Some(Parsed(s)) ==> r == s
  {
    match cell
    case Some(Parsed(s)) => s
    case _ => []
  }

  predicate NoDuplicates(list: seq<string>) {
    forall i, j :: 0 <= i < j < |list| ==> list[i] != list[j]
  }

  /** The list after the add handler accepts a non-empty symbol: appended at
      the end unless already present. */
  function Added(list: seq<string>, sym: string): (r: seq<string>)
    ensures sym in r
    ensures forall x :: x in r <==> x in list || x == sym
    ensures |list| <= |r| <= |list| + 1 && r[..|list|] == list
    ensures NoDuplicates(list) ==> NoDuplicates(r)
  {
    if sym in list then list else list + [sym]
  }

  /** The remove handler's `filter(s => s !== sym)`: every exact match
      goes, everything else stays. */
  function Removed(list: seq<string>, sym: string): (r: seq<string>)
    ensures sym !in r
    ensures forall x :: x in r <==> x in list && x != sym
    ensures |r| <= |list|
    decreases |list|
  {
    if list == [] then []
    else if list[0] == sym then Removed(list[1..], sym)
    else [list[0]] + Removed(list[1..], sym)
  }

  /** Removal works element by element: the kept elements stay in their
      original order. */
  lemma {:induction false} RemovedDistributes(a: seq<string>, b: seq<string>, sym: string)
    ensures Removed(a + b, sym) == Removed(a, sym) + Removed(b, sym)
    decreases |a|
  {
    if a != [] {
      assert (a + b)[1..] == a[1..] + b;
      RemovedDistributes(a[1..], b, sym);
    } else {
      assert a + b == b;
    }
  }

  /** Removing a symbol that is not in the list leaves the list equal. */
  lemma {:induction false} RemovedAbsent(list: seq<string>, sym: string)
    requires sym !in list
    ensures Removed(list, sym) == list
    decreases |list|
  {
    if list != [] {
      RemovedAbsent(list[1..], sym);
      assert list == [list[0]] + list[1..];
    }
  }

  /** Removal takes out every occurrence of the symbol and keeps the count
      of every other symbol. */
  lemma {:induction false} RemovedCounts(list: seq<string>, sym: string)
    ensures multiset(Removed(list, sym)) == multiset(list)[sym := 0]
    decreases |list|
  {
    if list != [] {
      RemovedCounts(list[1..], sym);
      assert list == [list[0]] + list[1..];
    }
  }

  /** A list without duplicates stays without duplicates after removal. */
  lemma {:induction false} RemovedKeepsNoDuplicates(list: seq<string>, sym: string)
    requires NoDuplicates(list)
    ensures NoDuplicates(Removed(list, sym))
    decreases |list|
  {
    if list != [] {
      assert NoDuplicates(list[1..]) by {
        forall i, j | 0 <= i < j < |list[1..]| ensures list[1..][i] != list[1..][j] {
          assert list[1..][i] == list[i + 1] && list[1..][j] == list[j + 1];
        }
      }
      RemovedKeepsNoDuplicates(list[1..], sym);
      if list[0] != sym {
        var rest := Removed(list[1..], sym);
        assert list[0] !in list[1..] by {
          forall j | 0 <= j < |list[1..]| ensures list[1..][j] != list[0] {
            assert list[1..][j] == list[j + 1];
          }
        }
        assert list[0] !in rest;
        var r := [list[0]] + rest;
        forall i, j | 0 <= i < j < |r| ensures r[i] != r[j] {
          if i == 0 {
            assert r[j] == rest[j - 1];
          } else {
            assert r[i] == rest[i - 1] && r[j] == rest[j - 1];
          }
        }
      }
    }
  }

  /** In a list without duplicates a present symbol occurs once. */
  lemma {:induction false} OccursOnce(list: seq<string>, sym: string)
    requires NoDuplicates(list) && sym in list
    ensures multiset(list)[sym] == 1
    decreases |list|
  {
    assert list == [list[0]] + list[1..];
    assert NoDuplicates(list[1..]) by {
      forall i, j | 0 <= i < j < |list[1..]| ensures list[1..][i] != list[1..][j] {
        assert list[1..][i] == list[i + 1] && list[1..][j] == list[j + 1];
      }
    }
    if list[0] == sym {
      assert sym !in list[1..] by {
        forall j | 0 <= j < |list[1..]| ensures list[1..][j] != sym {
          assert list[1..][j] == list[j + 1];
        }
      }
      assert multiset(list[1..])[sym] == 0;
    } else {
      OccursOnce(list[1..], sym);
    }
  }

  /** Adding a symbol twice is adding it once. */
  lemma AddIdempotent(list: seq<string>, sym: string)
    ensures Added(Added(list, sym), sym) == Added(list, sym)
  {
  }

  /** Adding a symbol twice gives one occurrence in a list without duplicates. */
  lemma AddTwiceOccursOnce(list: seq<string>, sym: string)
    requires NoDuplicates(list)
    ensures multiset(Added(Added(list, sym), sym))[sym] == 1
  {
    AddIdempotent(list, sym);
    OccursOnce(Added(list, sym), sym);
  }

  /** Removing a newly added symbol gives back the list before the add. */
  lemma RemoveUndoesAdd(list: seq<string>, sym: string)
    requires sym !in list
    ensures Removed(Added(list, sym), sym) == list
  {
    RemovedDistributes(list, [sym], sym);
    RemovedAbsent(list, sym);
    assert Removed([sym], sym) == Removed([], sym);
  }

  /** The storage entry holding the watchlist. */
  class WatchStore {
    var cell: Option<Stored>

    constructor (initial: Option<Stored>)
      ensures cell == initial
    {
      cell := initial;
    }

    /** `getWatch`. */
    function GetWatch(): seq<string>
      reads this
    {
      Read(cell)
    }

    /** `setWatch`: stores the list; a later read gives it back. */
    method SetWatch(list: seq<string>)
      modifies this
      ensures cell == Some(Parsed(list))
      ensures GetWatch() == list
    {
      cell := Some(Parsed(list));
    }

    /** The add form's submit handler, on the normalised symbol: an empty
        symbol or one already listed changes nothing (storage is not even
        written); otherwise the symbol is appended and the list written. */
    method Add(sym: string)
      modifies this
      ensures sym == [] || sym in old(GetWatch()) ==> cell == old(cell)
      ensures sym != [] && sym !in old(GetWatch()) ==> cell == Some(Parsed(old(GetWatch()) + [sym]))
      ensures sym != [] ==> GetWatch() == Added(old(GetWatch()), sym)
    {
      if sym == [] {
        return;
      }
      var list := GetWatch();
      if sym !in list {
        list := list + [sym];
        SetWatch(list);
      }
    }

    /** A row's remove button: the list read from storage without the
        symbol is written back, whether or not anything was removed. A
        button with an empty symbol does nothing. */
    method Remove(sym: string)
      modifies this
      ensures sym == [] ==> cell == old(cell)
      ensures sym != [] ==> cell == Some(Parsed(Removed(old(GetWatch()), sym)))
    {
      if sym == [] {
        return;
      }
      var list := Removed(GetWatch(), sym);
      SetWatch(list);
    }
  }
}
