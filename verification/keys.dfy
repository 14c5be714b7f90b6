/** The keys a trial listens for: the ten digit keys and the submit key, each
    reported by its key name, and `"".join` over a list of key names. */
module Keys {
  import opened Decimal
  import opened Seqs

  /** A key name as the keyboard poll reports it. */
  type Key = string

  /** What one poll of the keyboard returns: the keys pressed since the previous poll, in order. */
  type Batch = seq<Key>

  /** The submit key. */
  const Return: Key := "return"

  /** One of the keys '0'..'9'. */
  predicate IsDigitKey(k: Key) {
    |k| == 1 && IsDigitChar(k[0])
  }

  /** The key list the poll is restricted to (experiment.py:172). */
  predicate Allowed(k: Key) {
    IsDigitKey(k) || k == Return
  }

  predicate AllAllowed(keys: seq<Key>) {
    forall k | k in keys :: Allowed(k)
  }

  predicate DigitKeys(keys: seq<Key>) {
    forall k | k in keys :: IsDigitKey(k)
  }

  /** The submit key occurs at most once in `keys`. Unlike the predicates
      above, this one is about positions, so it quantifies over indices. */
  predicate AtMostOneReturn(keys: seq<Key>) {
    forall i, j :: 0 <= i < j < |keys| ==> keys[i] != Return || keys[j] != Return
  }

  /** `"".join(keys)`. */
  function Join(keys: seq<Key>): string {
    Concat(keys)
  }

  /** Joining digit keys spells out their digits one character per key. */
  lemma {:induction false} JoinDigitKeys(keys: seq<Key>)
    requires DigitKeys(keys)
    ensures |Join(keys)| == |keys|
    ensures forall i :: 0 <= i < |keys| ==> keys[i] == [Join(keys)[i]]
    ensures AllDigits(Join(keys))
    decreases |keys|
  {
    if |keys| > 0 {
      var init := keys[..|keys| - 1];
      assert keys == init + [keys[|keys| - 1]];
      assert IsDigitKey(keys[|keys| - 1]);
      JoinDigitKeys(init);
      assert Join(keys) == Join(init) + keys[|keys| - 1];
    }
  }

  /** An allowed key that is not the submit key is a digit key. */
  lemma AllowedWithoutReturnAreDigits(keys: seq<Key>)
    requires AllAllowed(keys) && Return !in keys
    ensures DigitKeys(keys)
  {
    forall k | k in keys
      ensures IsDigitKey(k)
    {
      assert Allowed(k);
    }
  }

  /** A joined list of keys is allowed exactly when both parts are. */
  lemma AllowedAppend(a: seq<Key>, b: seq<Key>)
    ensures AllAllowed(a + b) <==> AllAllowed(a) && AllAllowed(b)
  {
    if AllAllowed(a + b) {
      forall k | k in a
        ensures Allowed(k)
      {
        assert k in a + b;
      }
      forall k | k in b
        ensures Allowed(k)
      {
        assert k in a + b;
      }
    }
  }
}
