/** The shared table of loaded grammars (src/lang.c:154-222) as one thread sees it while it holds
    the lock.  Which thread runs when is the subject of module LangProtocol. */
module LangCaches {
  import opened Optional

  const MAX_LANGS: nat := 32

  /** What the search under the lock finds. */
  datatype Found = Hit(idx: nat) | InFlight | Full | Claimed

  function IndexOf(s: seq<string>, x: string): (r: Option<nat>)
    ensures match r
      case None => x !in s
      case Some(i) => i < |s| && s[i] == x && forall k :: 0 <= k < i ==> s[k] != x
  {
    if s == [] then None
    else if s[0] == x then Some(0)
    else match IndexOf(s[1..], x)
      case None => None
      case Some(i) => Some(i + 1)
  }

  function Search(entries: seq<string>, loading: seq<string>, name: string): Found {
    match IndexOf(entries, name)
    case Some(i) => Hit(i)
    case None =>
      if name in loading then InFlight
      else if |loading| == MAX_LANGS || |entries| == MAX_LANGS then Full
      else Claimed
  }

  /** Overwrite the first `name` with the last element and shorten by one. */
  function SwapRemove(s: seq<string>, name: string): seq<string> {
    match IndexOf(s, name)
    case None => s
    case Some(i) => s[i := s[|s| - 1]][..|s| - 1]
  }

  class LangCache {
    const entries: array<string>
    const loading: array<string>
    var entryCount: nat
    var loadingCount: nat

    ghost predicate Valid()
      reads this
    {
      && entries != loading
      && entries.Length == loading.Length == MAX_LANGS
      && entryCount <= MAX_LANGS && loadingCount <= MAX_LANGS
    }

    ghost function Entries(): seq<string>
      reads this, entries
      requires Valid()
    {
      entries[..entryCount]
    }

    ghost function Loading(): seq<string>
      reads this, loading
      requires Valid()
    {
      loading[..loadingCount]
    }

    constructor ()
      ensures Valid() && Entries() == [] && Loading() == []
    {
      entries := new string[MAX_LANGS](_ => "");
      loading := new string[MAX_LANGS](_ => "");
      entryCount, loadingCount := 0, 0;
    }

    /** The first critical section: hit, wait for the loader, give up, or become the loader. */
    method LookUp(name: string) returns (found: Found)
      requires Valid()
      modifies this`loadingCount, loading
      ensures Valid() && Entries() == old(Entries())
      ensures found == Search(old(Entries()), old(Loading()), name)
      ensures Loading() == if found.Claimed? then old(Loading()) + [name] else old(Loading())
    {
      for i := 0 to entryCount
        invariant forall k :: 0 <= k < i ==> entries[k] != name
      {
        if entries[i] == name {
          assert Entries()[i] == name;
          return Hit(i);
        }
      }
      var inFlight := false;
      for i := 0 to loadingCount
        invariant !inFlight && forall k :: 0 <= k < i ==> loading[k] != name
      {
        if loading[i] == name {
          inFlight := true;
          break;
        }
      }
      assert inFlight <==> name in Loading();
      if inFlight { return InFlight; }
      if loadingCount == MAX_LANGS || entryCount == MAX_LANGS { return Full; }
      loading[loadingCount] := name;
      loadingCount := loadingCount + 1;
      found := Claimed;
    }

    /** The second critical section, after the unlocked load: unmark, and insert if it loaded and
        there is room.  The caller then broadcasts. */
    method Complete(name: string, loaded: bool) returns (idx: Option<nat>)
      requires Valid()
      modifies this`loadingCount, this`entryCount, loading, entries
      ensures Valid()
      ensures Loading() == SwapRemove(old(Loading()), name)
      ensures idx == if loaded && |old(Entries())| < MAX_LANGS then Some(|old(Entries())|) else None
      ensures Entries() == if idx.Some? then old(Entries()) + [name] else old(Entries())
    {
      ghost var before := Loading();
      for i := 0 to loadingCount
        invariant loadingCount == |before| && Loading() == before && forall k :: 0 <= k < i ==> before[k] != name
        invariant Entries() == old(Entries()) && entryCount == old(entryCount)
      {
        if loading[i] == name {
          assert before[i] == name;
          assert IndexOf(before, name) == Some(i);
          loadingCount := loadingCount - 1;
          loading[i] := loading[loadingCount];
          assert Loading() == before[i := before[|before| - 1]][..|before| - 1];
          break;
        }
      }
      assert name !in before ==> Loading() == before;
      idx := None;
      if loaded && entryCount < MAX_LANGS {
        idx := Some(entryCount);
        entries[entryCount] := name;
        entryCount := entryCount + 1;
      }
    }
  }
}
