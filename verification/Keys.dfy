/** Keys are byte strings compared the way std::string compares them: lexicographically,
    with a proper prefix smaller than any of its extensions. */
module Keys {

  type Byte = b: int | 0 <= b < 256

  type Key = seq<Byte>

  /** At index i, and not before, a and b differ and a comes first; or a ends there. */
  predicate FirstDiffers(a: Key, b: Key, i: nat) {
    i <= |a| && i < |b| && (forall j :: 0 <= j < i ==> a[j] == b[j]) && (i < |a| ==> a[i] < b[i])
  }

  predicate Less(a: Key, b: Key) {
    exists i :: 0 <= i < |b| && FirstDiffers(a, b, i)
  }

  predicate AtMost(a: Key, b: Key) {
    !Less(b, a)
  }

  lemma Irreflexive(a: Key)
    ensures !Less(a, a)
  {
  }

  lemma Transitive(a: Key, b: Key, c: Key)
    requires Less(a, b) && Less(b, c)
    ensures Less(a, c)
  {
    var i :| 0 <= i < |b| && FirstDiffers(a, b, i);
    var j :| 0 <= j < |c| && FirstDiffers(b, c, j);
    assert FirstDiffers(a, c, if i < j then i else j);
  }

  lemma Asymmetric(a: Key, b: Key)
    requires Less(a, b)
    ensures !Less(b, a)
  {
    if Less(b, a) {
      Transitive(a, b, a);
      Irreflexive(a);
    }
  }

  lemma Connected(a: Key, b: Key)
    ensures Less(a, b) || a == b || Less(b, a)
  {
    var i := CommonPrefix(a, b);
    if i < |b| && (i < |a| ==> a[i] < b[i]) {
      assert FirstDiffers(a, b, i);
    } else if i < |a| {
      assert FirstDiffers(b, a, i);
    }
  }

  function CommonPrefix(a: Key, b: Key): (i: nat)
    ensures i <= |a| && i <= |b|
    ensures forall j :: 0 <= j < i ==> a[j] == b[j]
    ensures i < |a| && i < |b| ==> a[i] != b[i]
  {
    if a == [] || b == [] || a[0] != b[0] then 0
    else
      var n := CommonPrefix(a[1..], b[1..]);
      assert forall j :: 1 <= j < n + 1 ==> a[j] == a[1..][j - 1] && b[j] == b[1..][j - 1];
      n + 1
  }

  /** The three order laws at once, for proofs that need them of many keys. */
  lemma StrictTotalOrder()
    ensures forall a: Key :: !Less(a, a)
    ensures forall a: Key, b: Key, c: Key :: Less(a, b) && Less(b, c) ==> Less(a, c)
    ensures forall a: Key, b: Key :: Less(a, b) || a == b || Less(b, a)
  {
    forall a: Key ensures !Less(a, a) {
      Irreflexive(a);
    }
    forall a: Key, b: Key, c: Key | Less(a, b) && Less(b, c) ensures Less(a, c) {
      Transitive(a, b, c);
    }
    forall a: Key, b: Key ensures Less(a, b) || a == b || Less(b, a) {
      Connected(a, b);
    }
  }
}
