/** The photo wall: the memories that carry a picture address. */
module Gallery {
  import opened Text
  import opened Js
  import opened Types

  /** `m.imageUrl && m.imageUrl.trim() !== ''` */
  predicate HasPhoto(m: Memory) {
    m.imageUrl.Some? && m.imageUrl.value != "" && Trim(m.imageUrl.value) != ""
  }

  /** `memories.filter(...)` */
  function Photos(memories: seq<Memory>): (r: seq<Memory>)
    ensures |r| <= |memories|
  {
    if memories == [] then []
    else (if HasPhoto(memories[0]) then [memories[0]] else []) + Photos(memories[1..])
  }

  /** A memory has a photo exactly when its address is present and not
      blank. */
  lemma HasPhotoIff(m: Memory)
    ensures HasPhoto(m) <==> m.imageUrl.Some? && !IsBlank(m.imageUrl.value)
  {
    if m.imageUrl.Some? {
      TrimEmptyIffBlank(m.imageUrl.value);
    }
  }

  /** Exactly the memories with a photo are shown. */
  lemma {:induction false} PhotosMembers(memories: seq<Memory>, m: Memory)
    ensures m in Photos(memories) <==> m in memories && HasPhoto(m)
  {
    if memories != [] {
      PhotosMembers(memories[1..], m);
      assert memories == [memories[0]] + memories[1..];
    }
  }

  /** Filtering works piecewise, so the photos keep the memories' order. */
  lemma {:induction false} PhotosAppend(a: seq<Memory>, b: seq<Memory>)
    ensures Photos(a + b) == Photos(a) + Photos(b)
  {
    if a == [] {
      assert a + b == b;
    } else {
      var head := if HasPhoto(a[0]) then [a[0]] else [];
      assert (a + b)[0] == a[0] && (a + b)[1..] == a[1..] + b;
      calc {
        Photos(a + b);
        head + Photos(a[1..] + b);
        { PhotosAppend(a[1..], b); }
        head + (Photos(a[1..]) + Photos(b));
        (head + Photos(a[1..])) + Photos(b);
      }
    }
  }

  /** The empty state is shown exactly when no memory has a photo. */
  lemma {:induction false} PhotosEmpty(memories: seq<Memory>)
    ensures Photos(memories) == [] <==> forall i :: 0 <= i < |memories| ==> !HasPhoto(memories[i])
  {
    if memories != [] {
      PhotosEmpty(memories[1..]);
      assert forall i :: 1 <= i < |memories| ==> memories[i] == memories[1..][i - 1];
    }
  }
}
