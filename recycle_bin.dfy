/**
 * Record descriptors and the recycle bin of free descriptors.
 *
 * The bin is a SortedPreferentialArray ordered by descriptor length: `Add`
 * inserts a freed descriptor and `TakeNearestLargerOrEqual` removes the
 * smallest descriptor at least as long as the request (best fit). The bin is
 * modelled as unbounded; among descriptors of equal length, the one added
 * first is taken first.
 */
module RecycleBin {
  import opened Optional

  /** IndexedDiskElementDescriptor: `len` bytes of a serialized record at offset `pos`. */
  datatype Descriptor = Descriptor(pos: nat, len: nat)

  ghost predicate Sorted(bin: seq<Descriptor>)
  {
    forall i, j :: 0 <= i < j < |bin| ==> bin[i].len <= bin[j].len
  }

  /** recycle.add(ded): insert keeping the bin ordered by length. */
  function Add(bin: seq<Descriptor>, d: Descriptor): (r: seq<Descriptor>)
    ensures multiset(r) == multiset(bin) + multiset{d}
  {
    if bin == [] then [d]
    else if d.len < bin[0].len then [d] + bin
    else
      assert bin == [bin[0]] + bin[1..];
      [bin[0]] + Add(bin[1..], d)
  }

  lemma AddMembers(bin: seq<Descriptor>, d: Descriptor)
    ensures forall x :: x in Add(bin, d) <==> x in bin || x == d
  {
    var r := Add(bin, d);
    forall x ensures x in r <==> x in bin || x == d {
      assert x in r <==> x in multiset(r);
      assert x in bin <==> x in multiset(bin);
    }
  }

  /** Adding to an ordered bin keeps it ordered. */
  lemma {:induction false} AddKeepsSorted(bin: seq<Descriptor>, d: Descriptor)
    requires Sorted(bin)
    ensures Sorted(Add(bin, d))
  {
    if bin != [] && d.len >= bin[0].len {
      var tail := Add(bin[1..], d);
      AddKeepsSorted(bin[1..], d);
      AddMembers(bin[1..], d);
      var r := [bin[0]] + tail;
      forall i, j | 0 <= i < j < |r| ensures r[i].len <= r[j].len {
        if i == 0 {
          assert r[j] == tail[j - 1];
          assert tail[j - 1] in bin[1..] || tail[j - 1] == d;
        }
      }
    }
  }

  /** Position of the first descriptor at least `n` long, or |bin| when there is none. */
  function FirstFit(bin: seq<Descriptor>, n: nat): (i: nat)
    ensures i <= |bin|
    ensures forall j :: 0 <= j < i ==> bin[j].len < n
    ensures i < |bin| ==> bin[i].len >= n
  {
    if bin == [] then 0
    else if bin[0].len >= n then 0
    else 1 + FirstFit(bin[1..], n)
  }

  /** The descriptor taken from the bin (None on a miss) and what is left in it. */
  datatype Taken = Taken(rep: Option<Descriptor>, rest: seq<Descriptor>)

  /** recycle.takeNearestLargerOrEqual(ded), for a request of `n` bytes. */
  function TakeNearestLargerOrEqual(bin: seq<Descriptor>, n: nat): (t: Taken)
    ensures t.rep.None? <==> forall d :: d in bin ==> d.len < n
    ensures t.rep.None? ==> t.rest == bin
    ensures t.rep.Some? ==>
              && t.rep.value in bin
              && t.rep.value.len >= n
              && multiset(t.rest) == multiset(bin) - multiset{t.rep.value}
  {
    var i := FirstFit(bin, n);
    if i == |bin| then Taken(None, bin)
    else
      assert bin == bin[..i] + [bin[i]] + bin[i + 1..];
      Taken(Some(bin[i]), bin[..i] + bin[i + 1..])
  }

  /** On an ordered bin the take is a best fit and leaves the bin ordered. */
  lemma TakeIsBestFit(bin: seq<Descriptor>, n: nat)
    requires Sorted(bin)
    ensures var t := TakeNearestLargerOrEqual(bin, n);
            && Sorted(t.rest)
            && (t.rep.Some? ==> forall d :: d in bin && d.len >= n ==> t.rep.value.len <= d.len)
  {
    var i := FirstFit(bin, n);
    if i < |bin| {
      var rest := bin[..i] + bin[i + 1..];
      forall a, b | 0 <= a < b < |rest| ensures rest[a].len <= rest[b].len {
        var a' := if a < i then a else a + 1;
        var b' := if b < i then b else b + 1;
        assert rest[a] == bin[a'] && rest[b] == bin[b'];
      }
      forall d | d in bin && d.len >= n ensures bin[i].len <= d.len {
        var j :| 0 <= j < |bin| && bin[j] == d;
      }
    }
  }
}
