/** What memWrite decides about a SET (state MW_EVAL of
    Acceleration/memcached/hls/sources/hashTable/memWrite.cpp). */
module MemWriteStage {
  /** What the comparison says of a bin. */
  datatype Bin = Bin(matches: bool, free: bool)

  /** One call: the SET fails and completes, or writes to a bin and completes with its
      last word, or the call takes no branch, writes no completion, and the state stays. */
  datatype Outcome = Fails | Writes(location: nat) | Stays

  predicate IsFree(b: Bin) {
    b.free && !b.matches
  }

  predicate IsOld(b: Bin) {
    !b.free && b.matches
  }

  predicate SomeFree(bins: seq<Bin>) {
    exists i :: 0 <= i < |bins| && IsFree(bins[i])
  }

  predicate SomeOld(bins: seq<Bin>) {
    exists i :: 0 <= i < |bins| && IsOld(bins[i])
  }

  /** The first of the bins with a property. */
  ghost predicate IsFirst(bins: seq<Bin>, p: Bin -> bool, k: nat) {
    k < |bins| && p(bins[k]) && forall i :: 0 <= i < k ==> !p(bins[i])
  }

  /** The loop over the bins and the choice after it; noAddress says that the pool of
      addresses for values of this length is empty. */
  method EvalSet(bins: seq<Bin>, noAddress: bool) returns (outcome: Outcome)
    ensures outcome == Fails <==> noAddress || (!SomeFree(bins) && !SomeOld(bins))
    ensures outcome == Stays <==> !noAddress && !SomeFree(bins) && SomeOld(bins)
    ensures outcome.Writes? ==> IsFirst(bins, if SomeOld(bins) then IsOld else IsFree, outcome.location)
  {
    var found, replace := false, false;
    var location: nat, replaceLocation: nat := 0, 0;
    var i := |bins|;
    while i > 0
      invariant 0 <= i <= |bins|
      invariant found <==> exists j :: i <= j < |bins| && IsFree(bins[j])
      invariant replace <==> exists j :: i <= j < |bins| && IsOld(bins[j])
      invariant found ==> i <= location < |bins| && IsFree(bins[location])
                          && forall j :: i <= j < location ==> !IsFree(bins[j])
      invariant replace ==> i <= replaceLocation < |bins| && IsOld(bins[replaceLocation])
                            && forall j :: i <= j < replaceLocation ==> !IsOld(bins[j])
    {
      i := i - 1;
      if bins[i].free && !bins[i].matches {
        found, location := true, i;
      } else if !bins[i].free && bins[i].matches {
        replace, replaceLocation := true, i;
      }
    }
    if (!found && !replace) || noAddress {
      outcome := Fails;
    } else if found {
      if replace {
        location := replaceLocation;
      }
      outcome := Writes(location);
    } else {
      outcome := Stays;
    }
  }

  /** A SET that replaces a value in a bucket without a free bin is evaluated again and
      again: of any calls, none completes if and only if no pool is found empty. */
  method EvalRepeatedly(bins: seq<Bin>, noAddress: seq<bool>) returns (completed: bool)
    requires !SomeFree(bins) && SomeOld(bins)
    ensures completed <==> exists i :: 0 <= i < |noAddress| && noAddress[i]
  {
    completed := false;
    for t := 0 to |noAddress|
      invariant completed <==> exists i :: 0 <= i < t && noAddress[i]
    {
      if !completed {
        var outcome := EvalSet(bins, noAddress[t]);
        completed := outcome != Stays;
      }
    }
  }
}
