/**
 * Grouping of rendered resources by lower-cased kind, as `PreviewResources` does for each
 * Application (preview/applicationset.go, the manifest loop and the kind list).
 */
module Grouping {
  import opened Wrappers
  import opened Strings
  import opened Sorting
  import opened Preview

  /** The bucket key of a resource. */
  function KindOf(r: Resource): string
  {
    ToLower(r.kind)
  }

  /** The resources of one bucket, in arrival order. */
  function Bucket(rs: seq<Resource>, kind: string): (b: seq<Resource>)
    ensures |b| <= |rs|
    ensures forall x :: x in b <==> x in rs && KindOf(x) == kind
  {
    if |rs| == 0 then []
    else if KindOf(rs[0]) == kind then [rs[0]] + Bucket(rs[1..], kind)
    else Bucket(rs[1..], kind)
  }

  /** Buckets preserve arrival order: the bucket of a concatenation is the concatenation of the buckets. */
  lemma {:induction false} BucketAppend(rs1: seq<Resource>, rs2: seq<Resource>, kind: string)
    ensures Bucket(rs1 + rs2, kind) == Bucket(rs1, kind) + Bucket(rs2, kind)
  {
    if |rs1| == 0 {
      assert rs1 + rs2 == rs2;
    } else {
      assert (rs1 + rs2)[1..] == rs1[1..] + rs2;
      BucketAppend(rs1[1..], rs2, kind);
    }
  }

  /** The kinds present, each lower-cased. */
  function KindSet(rs: seq<Resource>): (s: set<string>)
    ensures forall k :: k in s ==> ToLower(k) == k
  {
    set r | r in rs :: KindOf(r)
  }

  /** The map `resources` that the manifest loop builds. */
  function Buckets(rs: seq<Resource>): (m: map<string, seq<Resource>>)
    ensures m.Keys == KindSet(rs)
    ensures forall k :: k in m ==> m[k] == Bucket(rs, k)
  {
    map k | k in KindSet(rs) :: Bucket(rs, k)
  }

  /** Every bucket is non-empty and holds only resources of its own kind. */
  lemma BucketsHoldTheirKind(rs: seq<Resource>)
    ensures forall k :: k in Buckets(rs) ==> Buckets(rs)[k] != [] && forall x :: x in Buckets(rs)[k] ==> KindOf(x) == k
  {
    forall k | k in Buckets(rs) ensures Buckets(rs)[k] != [] {
      var r :| r in rs && KindOf(r) == k;
      assert r in Bucket(rs, k);
    }
  }

  /** Reading a bucket as Go reads a map: a missing key gives the empty slice. */
  function BucketOf(resources: map<string, seq<Resource>>, kind: string): seq<Resource>
  {
    if kind in resources then resources[kind] else []
  }

  lemma BucketEmptyOutside(rs: seq<Resource>, kind: string)
    requires kind !in KindSet(rs)
    ensures Bucket(rs, kind) == []
  {
  }

  lemma KindSetSnoc(rs: seq<Resource>, x: Resource)
    ensures KindSet(rs + [x]) == KindSet(rs) + {KindOf(x)}
  {
    forall k | k in KindSet(rs + [x]) ensures k in KindSet(rs) + {KindOf(x)} {
      var r :| r in rs + [x] && KindOf(r) == k;
      if r != x { assert r in rs; }
    }
  }

  /** Adding one resource appends it to its own bucket, creating the bucket if needed. */
  lemma BucketsSnoc(rs: seq<Resource>, x: Resource)
    ensures Buckets(rs + [x]) == Buckets(rs)[KindOf(x) := BucketOf(Buckets(rs), KindOf(x)) + [x]]
  {
    KindSetSnoc(rs, x);
    BucketsSnocValues(rs, x);
  }

  lemma BucketsSnocValues(rs: seq<Resource>, x: Resource)
    ensures var m := Buckets(rs); var n := m[KindOf(x) := BucketOf(m, KindOf(x)) + [x]];
      forall k :: k in Buckets(rs + [x]) ==> k in n && Buckets(rs + [x])[k] == n[k]
  {
    var m, m' := Buckets(rs), Buckets(rs + [x]);
    var n := m[KindOf(x) := BucketOf(m, KindOf(x)) + [x]];
    forall k | k in m' ensures k in n && m'[k] == n[k] {
      BucketSnocAt(rs, x, k);
      if k != KindOf(x) {
        KindSetSnoc(rs, x);
        assert k in m;
      }
    }
  }

  /** The bucket of one kind after one more resource: the resource is appended exactly to its own kind. */
  lemma BucketSnocAt(rs: seq<Resource>, x: Resource, k: string)
    ensures Bucket(rs + [x], k) == BucketOf(Buckets(rs), k) + if KindOf(x) == k then [x] else []
  {
    BucketAppend(rs, [x], k);
    assert [x][1..] == [];
    if k !in KindSet(rs) { BucketEmptyOutside(rs, k); }
  }

  /** Every manifest parsed, or the first parse error. */
  function ParseAll(manifests: seq<string>, parse: string -> Result<Resource>): (r: Result<seq<Resource>>)
  {
    if |manifests| == 0 then Success([])
    else
      match parse(manifests[0])
      case Failure(e) => Failure(e)
      case Success(x) =>
        match ParseAll(manifests[1..], parse)
        case Failure(e) => Failure(e)
        case Success(xs) => Success([x] + xs)
  }

  lemma {:induction false} ParseAllSucceeds(manifests: seq<string>, parse: string -> Result<Resource>, rs: seq<Resource>)
    requires |rs| == |manifests|
    requires forall j :: 0 <= j < |manifests| ==> parse(manifests[j]) == Success(rs[j])
    ensures ParseAll(manifests, parse) == Success(rs)
  {
    if |manifests| > 0 {
      ParseAllSucceeds(manifests[1..], parse, rs[1..]);
      assert rs == [rs[0]] + rs[1..];
    }
  }

  lemma {:induction false} ParseAllFailsAt(manifests: seq<string>, parse: string -> Result<Resource>, i: nat)
    requires i < |manifests| && parse(manifests[i]).Failure?
    requires forall j :: 0 <= j < i ==> parse(manifests[j]).Success?
    ensures ParseAll(manifests, parse) == Failure(parse(manifests[i]).error)
  {
    if i > 0 {
      ParseAllFailsAt(manifests[1..], parse, i - 1);
    }
  }

  /**
   * The manifest loop of `PreviewResources`: decode each manifest and append it to the bucket of
   * its lower-cased kind; a manifest that does not decode is fatal.
   */
  method GroupByKind(manifests: seq<string>, parse: string -> Result<Resource>) returns (r: Result<map<string, seq<Resource>>>)
    ensures ParseAll(manifests, parse).Failure? ==> r == Failure(ParseAll(manifests, parse).error)
    ensures ParseAll(manifests, parse).Success? ==> r == Success(Buckets(ParseAll(manifests, parse).value))
  {
    var resources: map<string, seq<Resource>> := map[];
    ghost var parsed: seq<Resource> := [];
    for i := 0 to |manifests|
      invariant |parsed| == i
      invariant forall j :: 0 <= j < i ==> parse(manifests[j]) == Success(parsed[j])
      invariant resources == Buckets(parsed)
    {
      var resource := parse(manifests[i]);
      if resource.Failure? {
        ParseAllFailsAt(manifests, parse, i);
        return Failure(resource.error);
      }
      BucketsSnoc(parsed, resource.value);
      resources := AddResource(resources, resource.value);
      parsed := parsed + [resource.value];
    }
    ParseAllSucceeds(manifests, parse, parsed);
    return Success(resources);
  }

  /** The body of the manifest loop: create the bucket of the resource's kind if missing, then append to it. */
  method AddResource(resources: map<string, seq<Resource>>, x: Resource) returns (r: map<string, seq<Resource>>)
    ensures r == resources[KindOf(x) := BucketOf(resources, KindOf(x)) + [x]]
  {
    var kind := ToLower(x.kind);
    r := resources;
    if kind !in r {
      r := r[kind := []];
    }
    r := r[kind := r[kind] + [x]];
  }

  /**
   * The kind list: the map's keys collected in whatever order map iteration yields them, then
   * sorted in place. Whatever that order, the result is the same sorted list.
   */
  method SortedKinds(resources: map<string, seq<Resource>>) returns (kinds: seq<string>)
    ensures kinds == SortedSet(resources.Keys)
  {
    var collected: seq<string> := [];
    var remaining := resources.Keys;
    while remaining != {}
      invariant remaining <= resources.Keys
      invariant multiset(collected) + multiset(remaining) == multiset(resources.Keys)
      decreases |remaining|
    {
      var kind :| kind in remaining;
      SplitOff(remaining, kind);
      collected := collected + [kind];
      remaining := remaining - {kind};
    }
    var a := new string[|collected|](i requires 0 <= i < |collected| => collected[i]);
    assert a[..] == collected;
    SortInPlace(a);
    kinds := a[..];
    SortedUnique(kinds, SortedSet(resources.Keys));
  }

  /** The buckets of `kinds`, one after the other: the resources in the order they are listed. */
  function Flatten(kinds: seq<string>, resources: map<string, seq<Resource>>): seq<Resource>
  {
    if |kinds| == 0 then [] else BucketOf(resources, kinds[0]) + Flatten(kinds[1..], resources)
  }

  predicate Distinct(kinds: seq<string>)
  {
    forall i, j :: 0 <= i < j < |kinds| ==> kinds[i] != kinds[j]
  }

  /** With distinct kinds, one more resource shows up once when its kind is listed, and not otherwise. */
  lemma {:induction false} FlattenSnoc(rs: seq<Resource>, x: Resource, kinds: seq<string>)
    requires Distinct(kinds)
    ensures multiset(Flatten(kinds, Buckets(rs + [x])))
         == multiset(Flatten(kinds, Buckets(rs))) + if KindOf(x) in kinds then multiset{x} else multiset{}
  {
    if |kinds| > 0 {
      var k := kinds[0];
      assert Distinct(kinds[1..]);
      FlattenSnoc(rs, x, kinds[1..]);
      BucketsSnoc(rs, x);
      assert KindOf(x) in kinds <==> KindOf(x) == k || KindOf(x) in kinds[1..];
      assert KindOf(x) == k ==> KindOf(x) !in kinds[1..];
    }
  }

  lemma {:induction false} FlattenNothing(kinds: seq<string>)
    ensures Flatten(kinds, Buckets([])) == []
  {
    if |kinds| > 0 { FlattenNothing(kinds[1..]); }
  }

  /**
   * Listing the buckets of distinct kinds that cover every resource's kind lists each resource
   * exactly once: the listed resources are a permutation of the input.
   */
  lemma {:induction false} EveryResourceOnce(rs: seq<Resource>, kinds: seq<string>)
    requires Distinct(kinds)
    requires forall r :: r in rs ==> KindOf(r) in kinds
    ensures multiset(Flatten(kinds, Buckets(rs))) == multiset(rs)
  {
    if |rs| == 0 {
      FlattenNothing(kinds);
    } else {
      var init, x := rs[..|rs| - 1], rs[|rs| - 1];
      assert rs == init + [x];
      EveryResourceOnce(init, kinds);
      FlattenSnoc(init, x, kinds);
    }
  }

  /** In particular for the sorted kind list of the grouped resources: the sizes of all buckets add up to the input's. */
  lemma SortedBucketsPartition(rs: seq<Resource>)
    ensures multiset(Flatten(SortedSet(KindSet(rs)), Buckets(rs))) == multiset(rs)
    ensures |Flatten(SortedSet(KindSet(rs)), Buckets(rs))| == |rs|
  {
    var kinds := SortedSet(KindSet(rs));
    forall r | r in rs ensures KindOf(r) in kinds {
      assert KindOf(r) in KindSet(rs);
      assert KindOf(r) in multiset(KindSet(rs));
    }
    EveryResourceOnce(rs, kinds);
    assert |multiset(Flatten(kinds, Buckets(rs)))| == |multiset(rs)|;
  }
}
