/** `UUIDGenerator`: names a new unit by probing `prefix #1`, `prefix #2`, ... until one
    is not a key of `game.creeps`. */
module Utils {
  import opened Host

  class UuidGenerator {
    /** The keys of `game.creeps` the generator probes against. */
    const creeps: set<string>

    constructor(creeps: set<string>)
      ensures this.creeps == creeps
    {
      this.creeps := creeps;
    }

    /** `next(prefix)`: the least `prefix #k` (k >= 1) that is not a creep's name. The probe
        stops after at most `|creeps| + 1` attempts because distinct k give distinct names. */
    method Next(prefix: string) returns (name: string)
      ensures name !in creeps
      ensures exists k: nat :: 1 <= k <= |creeps| + 1 && name == Name(prefix, k) &&
                               forall j: nat :: 1 <= j < k ==> Name(prefix, j) in creeps
    {
      var attempt: nat := 1;
      ghost var probed: set<string> := {};
      while Name(prefix, attempt) in creeps
        invariant attempt >= 1
        invariant probed <= creeps && |probed| == attempt - 1
        invariant forall j: nat :: 1 <= j < attempt ==> Name(prefix, j) in creeps
        invariant forall j: nat :: j >= attempt ==> Name(prefix, j) !in probed
        decreases |creeps| - |probed|
      {
        forall j: nat | j >= attempt + 1
          ensures Name(prefix, j) != Name(prefix, attempt)
        {
          if Name(prefix, j) == Name(prefix, attempt) {
            NameInjective(prefix, j, attempt);
          }
        }
        probed := probed + {Name(prefix, attempt)};
        attempt := attempt + 1;
        SubsetSize(probed, creeps);
      }
      name := Name(prefix, attempt);
      SubsetSize(probed, creeps);
    }
  }

  lemma SubsetSize<T>(a: set<T>, b: set<T>)
    requires a <= b
    ensures |a| <= |b|
  {
    assert b == a + (b - a);
  }
}
