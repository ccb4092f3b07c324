/**
 * Topic parsing: a message topic such as `weather/box7/readings` is split on `/`, and the
 * box id is the second segment (server.py:42).
 */
module Topic {
  import opened Wrappers

  /** The separator of topic levels. */
  const SEP: char := '/'

  /**
   * `s.split(sep)`: every separator ends one segment and starts the next, so the result is
   * never empty, empty segments are kept and no segment holds the separator.
   */
  function Split(s: string, sep: char): (parts: seq<string>)
    ensures |parts| >= 1
    ensures forall i :: 0 <= i < |parts| ==> sep !in parts[i]
    ensures |parts| == 1 <==> sep !in s
    decreases |s|
  {
    if s == [] then [[]]
    else
      var rest := Split(s[1..], sep);
      if s[0] == sep then [[]] + rest
      else [[s[0]] + rest[0]] + rest[1..]
  }

  /** `sep.join(parts)`, the partner of Split. */
  function Join(parts: seq<string>, sep: char): string
    requires |parts| >= 1
    decreases |parts|
  {
    if |parts| == 1 then parts[0] else parts[0] + [sep] + Join(parts[1..], sep)
  }

  /** Prepending a non-separator character to the first segment prepends it to the joined string. */
  lemma JoinCons(c: char, parts: seq<string>, sep: char)
    requires |parts| >= 1
    ensures Join([[c] + parts[0]] + parts[1..], sep) == [c] + Join(parts, sep)
  {
    var ps := [[c] + parts[0]] + parts[1..];
    assert ps[1..] == parts[1..];
  }

  /** Joining the segments of a split gives back the string. */
  lemma {:induction false} JoinSplit(s: string, sep: char)
    ensures Join(Split(s, sep), sep) == s
    decreases |s|
  {
    if s != [] {
      var rest := Split(s[1..], sep);
      JoinSplit(s[1..], sep);
      if s[0] == sep {
        assert ([[]] + rest)[1..] == rest;
        assert s == [sep] + s[1..];
      } else {
        JoinCons(s[0], rest, sep);
        assert s == [s[0]] + s[1..];
      }
    }
  }

  /** A string without separators is a single segment. */
  lemma SplitSingle(s: string, sep: char)
    requires sep !in s
    ensures Split(s, sep) == [s]
  {
    JoinSplit(s, sep);
  }

  /** A separator after a separator-free prefix ends the first segment. */
  lemma {:induction false} SplitAfterPrefix(p: string, q: string, sep: char)
    requires sep !in p
    ensures Split(p + [sep] + q, sep) == [p] + Split(q, sep)
    decreases |p|
  {
    var s := p + [sep] + q;
    if p == [] {
      assert s[1..] == q;
    } else {
      assert s[1..] == p[1..] + [sep] + q;
      SplitAfterPrefix(p[1..], q, sep);
      assert [p[0]] + p[1..] == p;
    }
  }

  /** Splitting the join of separator-free segments gives back the segments. */
  lemma {:induction false} SplitJoin(parts: seq<string>, sep: char)
    requires |parts| >= 1
    requires forall i :: 0 <= i < |parts| ==> sep !in parts[i]
    ensures Split(Join(parts, sep), sep) == parts
    decreases |parts|
  {
    if |parts| == 1 {
      SplitSingle(parts[0], sep);
    } else {
      SplitJoin(parts[1..], sep);
      SplitAfterPrefix(parts[0], Join(parts[1..], sep), sep);
      assert [parts[0]] + parts[1..] == parts;
    }
  }

  /**
   * The box id of a topic: element 1 of `topic.split('/')`, or None where indexing it
   * raises because the topic has no separator at all.
   */
  function BoxId(topic: string): (id: Option<string>)
    ensures id.Some? <==> SEP in topic
    ensures id.Some? ==> SEP !in id.value
  {
    var parts := Split(topic, SEP);
    if |parts| >= 2 then Some(parts[1]) else None
  }

  /** The box id is exactly the text between the first and the second separator (or the end). */
  lemma BoxIdOfTopic(prefix: string, id: string, rest: string)
    requires SEP !in prefix && SEP !in id
    requires rest == [] || rest[0] == SEP
    ensures BoxId(prefix + [SEP] + id + rest) == Some(id)
  {
    var topic := prefix + [SEP] + id + rest;
    assert topic == prefix + [SEP] + (id + rest);
    SplitAfterPrefix(prefix, id + rest, SEP);
    if rest == [] {
      assert id + rest == id;
      SplitSingle(id, SEP);
    } else {
      assert id + rest == id + [SEP] + rest[1..];
      SplitAfterPrefix(id, rest[1..], SEP);
    }
  }

  /** The topic the boxes publish to gives the box id between the two levels. */
  lemma BoxIdExample()
    ensures BoxId("weather/box7/readings") == Some("box7")
  {
    assert "weather/box7/readings" == "weather" + [SEP] + "box7" + "/readings";
    BoxIdOfTopic("weather", "box7", "/readings");
  }
}
