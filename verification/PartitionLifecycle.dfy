/**
 The lists of assigned partitions that outlive a runner
 (internal/pkg/kafka/partition_runner.go).
 */
module PartitionLifecycle {
  import opened PartitionLanes

  type Partitions = map<string, seq<int>>

  function KeysOf(m: Partitions): (keys: set<Key>) {
    set topic, p | topic in m && p in m[topic] :: Key(topic, p)
  }

  predicate Distinct(s: seq<int>) {
    forall i, k :: 0 <= i < k < |s| ==> s[i] != s[k]
  }

  predicate AllDistinct(m: Partitions) {
    forall topic :: topic in m ==> Distinct(m[topic])
  }

  predicate SomeEach(m: Partitions) {
    forall topic :: topic in m ==> m[topic] != []
  }

  function Listed(m: Partitions, topic: string): (s: seq<int>) {
    if topic in m then m[topic] else []
  }

  lemma KeysByTopic(m: Partitions, topic: string, p: int)
    ensures Key(topic, p) in KeysOf(m) <==> p in Listed(m, topic)
  {
  }

  /** Appends the partitions that are not listed yet, keeping the order of both lists. */
  method Append(dst: seq<int>, src: seq<int>) returns (r: seq<int>)
    ensures dst <= r && (forall p :: p in r <==> p in dst || p in src)
    ensures Distinct(dst) ==> Distinct(r)
  {
    r := dst;
    for i := 0 to |src|
      invariant dst <= r && forall p :: p in r <==> p in dst || p in src[..i]
      invariant Distinct(dst) ==> Distinct(r)
    {
      if src[i] !in r {
        r := r + [src[i]];
      }
    }
  }

  /** Keeps the partitions that are not removed, in order. */
  method Keep(dst: seq<int>, removed: seq<int>) returns (kept: seq<int>)
    ensures forall p :: p in kept <==> p in dst && p !in removed
    ensures Distinct(dst) ==> Distinct(kept)
  {
    kept := [];
    for i := 0 to |dst|
      invariant forall p :: p in kept <==> p in dst[..i] && p !in removed
      invariant Distinct(dst) ==> Distinct(kept)
    {
      if dst[i] !in removed {
        kept := kept + [dst[i]];
      }
    }
  }

  method AddPartitions(dst: Partitions, src: Partitions) returns (r: Partitions)
    ensures KeysOf(r) == KeysOf(dst) + KeysOf(src)
    ensures AllDistinct(dst) ==> AllDistinct(r)
    ensures SomeEach(dst) && SomeEach(src) ==> SomeEach(r)
  {
    r := dst;
    var topics := src.Keys;
    while topics != {}
      invariant topics <= src.Keys && dst.Keys <= r.Keys <= dst.Keys + (src.Keys - topics)
      invariant forall t, p :: p in Listed(r, t) <==> p in Listed(dst, t) || (t !in topics && p in Listed(src, t))
      invariant AllDistinct(dst) ==> AllDistinct(r)
      invariant SomeEach(dst) && SomeEach(src) ==> SomeEach(r)
      decreases topics
    {
      var topic :| topic in topics;
      var listed := Append(Listed(r, topic), src[topic]);
      if src[topic] != [] {
        var first := src[topic][0];
        assert first in src[topic] || first in Listed(r, topic);
        assert first in listed;
      }
      r := if topic in r || listed != [] then r[topic := listed] else r;
      topics := topics - {topic};
    }
    forall key ensures key in KeysOf(r) <==> key in KeysOf(dst) + KeysOf(src) {
      KeysByTopic(r, key.topic, key.partition);
      KeysByTopic(dst, key.topic, key.partition);
      KeysByTopic(src, key.topic, key.partition);
    }
  }

  /** A topic that loses its last partition is dropped from the list. */
  method RemovePartitions(dst: Partitions, src: Partitions) returns (r: Partitions)
    ensures KeysOf(r) == KeysOf(dst) - KeysOf(src)
    ensures AllDistinct(dst) ==> AllDistinct(r)
    ensures SomeEach(dst) ==> SomeEach(r)
  {
    r := dst;
    var topics := src.Keys;
    while topics != {}
      invariant topics <= src.Keys && r.Keys <= dst.Keys
      invariant forall t, p :: p in Listed(r, t) <==> p in Listed(dst, t) && (t in topics || p !in Listed(src, t))
      invariant AllDistinct(dst) ==> AllDistinct(r)
      invariant SomeEach(dst) ==> SomeEach(r)
      decreases topics
    {
      var topic :| topic in topics;
      topics := topics - {topic};
      if |src[topic]| == 0 {
        continue;
      }
      var kept := Keep(Listed(r, topic), src[topic]);
      if kept != [] {
        var first := kept[0];
        assert first in kept;
        assert first in Listed(r, topic);
      }
      r := if |kept| == 0 then r - {topic} else r[topic := kept];
    }
    forall key ensures key in KeysOf(r) <==> key in KeysOf(dst) - KeysOf(src) {
      KeysByTopic(r, key.topic, key.partition);
      KeysByTopic(dst, key.topic, key.partition);
      KeysByTopic(src, key.topic, key.partition);
    }
  }
}
