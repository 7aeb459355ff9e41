/** `get_store_info`: pick the watched stores out of the store directory. */
module Stores {
  import opened Wrappers
  import opened Records
  import Seqs

  /** The membership test `r_store['StoreName'] in store_names`. */
  function Watched(storeNames: seq<string>): StoreRef -> bool
  {
    (s: StoreRef) => s.storeName in storeNames
  }

  /** The comprehension over the directory: watched entries, in directory order. */
  function Matching(directory: seq<StoreRef>, storeNames: seq<string>): seq<StoreRef>
  {
    Seqs.Filter(directory, Watched(storeNames))
  }

  /** `get_store_info`; `directory` is None when the fetch or the JSON
      access failed (the `except Exception` path). */
  function GetStoreInfo(directory: Option<seq<StoreRef>>, storeNames: seq<string>): (r: Option<seq<StoreRef>>)
    ensures r.Some? ==> r.value != [] && directory.Some?
  {
    match directory
    case None => None
    case Some(d) =>
      var stores := Matching(d, storeNames);
      if stores == [] then None else Some(stores)
  }

  /** `set(store_names) - set(found_store_names)`, the names reported missing. */
  function Unmatched(storeNames: seq<string>, found: seq<StoreRef>): set<string>
  {
    (set n | n in storeNames) - (set s | s in found :: s.storeName)
  }

  /** The resolved stores keep the directory's order. */
  lemma StoreInfoOrder(directory: seq<StoreRef>, storeNames: seq<string>)
    requires GetStoreInfo(Some(directory), storeNames).Some?
    ensures Seqs.IsSubsequence(GetStoreInfo(Some(directory), storeNames).value, directory)
  {
    Seqs.FilterIsSubsequence(directory, Watched(storeNames));
  }

  /** The resolved stores are exactly the watched directory entries: every
      copy of each and nothing else. */
  lemma StoreInfoExact(directory: seq<StoreRef>, storeNames: seq<string>, s: StoreRef)
    requires GetStoreInfo(Some(directory), storeNames).Some?
    ensures var stores := GetStoreInfo(Some(directory), storeNames).value;
      (s in stores <==> s in directory && s.storeName in storeNames) &&
      multiset(stores)[s] == if s.storeName in storeNames then multiset(directory)[s] else 0
  {
    Seqs.FilterMembership(directory, Watched(storeNames), s);
    Seqs.FilterCount(directory, Watched(storeNames), s);
  }

  /** None comes back exactly when the fetch failed or no entry matched;
      an empty list is never returned. */
  lemma StoreInfoNone(directory: Option<seq<StoreRef>>, storeNames: seq<string>)
    ensures GetStoreInfo(directory, storeNames).None? <==>
      directory.None? || forall k :: 0 <= k < |directory.value| ==> directory.value[k].storeName !in storeNames
  {
    if directory.Some? {
      Seqs.FilterEmpty(directory.value, Watched(storeNames));
    }
  }

  /** A watched name is reported missing exactly when no directory entry
      carries it; nothing is reported exactly when every name was found. */
  lemma UnmatchedNames(directory: seq<StoreRef>, storeNames: seq<string>)
    ensures var missing := Unmatched(storeNames, Matching(directory, storeNames));
      (forall n :: n in missing <==> n in storeNames && forall s :: s in directory ==> s.storeName != n) &&
      (missing == {} <==> forall n :: n in storeNames ==> exists s :: s in directory && s.storeName == n)
  {
    var found := Matching(directory, storeNames);
    var missing := Unmatched(storeNames, found);
    forall s ensures s in found <==> s in directory && s.storeName in storeNames {
      Seqs.FilterMembership(directory, Watched(storeNames), s);
    }
    forall n ensures n in missing <==> n in storeNames && forall s :: s in directory ==> s.storeName != n {
      if n in storeNames && n !in missing {
        var s :| s in found && s.storeName == n;
        assert s in directory;
      }
    }
  }
}
