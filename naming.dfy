/**
  The string and number helpers of the driver: how the tenant is cut out of
  the configured namespace prefix, how the namespace and the topic-name prefix
  are spelled, how a partition's sub-topic is named, and how a publish time in
  milliseconds becomes the nanosecond timestamp handed to the benchmark.
*/
module Naming {
  import opened Common

  // ---------------------------------------------------------------------------
  // Tenant and namespace names
  // ---------------------------------------------------------------------------

  /** The characters of `s` before its first '/', or all of `s` when it has none. */
  function BeforeFirstSlash(s: string): (r: string)
    ensures r <= s && '/' !in r
    ensures |r| < |s| ==> s[|r|] == '/'
  {
    if s == [] || s[0] == '/' then [] else [s[0]] + BeforeFirstSlash(s[1..])
  }

  /** The pieces of `s` between slashes, empty pieces included. */
  function Pieces(s: string): (ps: seq<string>)
    ensures |ps| >= 1
    decreases |s|
  {
    var head := BeforeFirstSlash(s);
    if |head| == |s| then [s] else [head] + Pieces(s[|head| + 1..])
  }

  /** Java drops the empty strings at the end of a split result. */
  function DropTrailingEmpty(ps: seq<string>): (qs: seq<string>)
    ensures qs <= ps
  {
    if ps != [] && ps[|ps| - 1] == "" then DropTrailingEmpty(ps[..|ps| - 1]) else ps
  }

  /**
    Java's `s.split("/")`: a string without a slash is returned whole (the empty
    string included); otherwise the pieces, with the trailing empty ones removed.
  */
  function Split(s: string): seq<string> {
    if '/' !in s then [s] else DropTrailingEmpty(Pieces(s))
  }

  /** `s` is made of slashes only, and there is at least one. */
  predicate OnlySlashes(s: string) {
    |s| > 0 && forall i :: 0 <= i < |s| ==> s[i] == '/'
  }

  /**
    `namespacePrefix.split("/")[0]`. When the split result is empty the array
    access throws an ArrayIndexOutOfBoundsException: that is `None`.
  */
  function Tenant(namespacePrefix: string): Option<string> {
    var parts := Split(namespacePrefix);
    if |parts| == 0 then None else Some(parts[0])
  }

  /** The tenant of a namespace `tenant/local`, as the admin service reads it. */
  function TenantOfNamespace(namespace: string): string {
    BeforeFirstSlash(namespace)
  }

  /** The namespace the driver creates: the prefix, a dash and the random suffix. */
  function NamespaceName(namespacePrefix: string, suffix: string): (ns: string)
    ensures |ns| == |namespacePrefix| + 1 + |suffix|
    ensures ns[..|namespacePrefix|] == namespacePrefix && ns[|namespacePrefix|] == '-'
    ensures ns[|namespacePrefix| + 1..] == suffix
  {
    namespacePrefix + "-" + suffix
  }

  lemma {:induction false} NoSlashIsWhole(s: string)
    requires '/' !in s
    ensures BeforeFirstSlash(s) == s
  {
  }

  lemma {:induction false} FirstPiece(s: string)
    ensures Pieces(s)[0] == BeforeFirstSlash(s)
  {
    if |BeforeFirstSlash(s)| == |s| {
      assert BeforeFirstSlash(s) <= s;
    }
  }

  /** Every piece is empty exactly when the string is made of slashes only. */
  lemma {:induction false} PiecesAllEmpty(s: string)
    ensures (forall k :: 0 <= k < |Pieces(s)| ==> Pieces(s)[k] == "") <==> (s == [] || OnlySlashes(s))
    decreases |s|
  {
    var head := BeforeFirstSlash(s);
    if |head| == |s| {
      assert Pieces(s) == [s];
      if s != [] {
        assert s[0] != '/' by { assert head[0] == s[0]; }
        assert !OnlySlashes(s);
        assert Pieces(s)[0] != "";
      }
    } else {
      var rest := s[|head| + 1..];
      PiecesAllEmpty(rest);
      assert Pieces(s) == [head] + Pieces(rest);
      forall k | 0 < k < |Pieces(s)| ensures Pieces(s)[k] == Pieces(rest)[k - 1] { }
      if head == [] {
        assert s[0] == '/';
        assert s == ['/'] + rest;
        if OnlySlashes(s) {
          assert forall i :: 0 <= i < |rest| ==> rest[i] == s[i + 1];
          assert rest == [] || OnlySlashes(rest);
          assert forall k :: 0 <= k < |Pieces(rest)| ==> Pieces(rest)[k] == "";
          assert Pieces(s)[0] == "";
          assert forall k :: 0 <= k < |Pieces(s)| ==> Pieces(s)[k] == "";
        }
        if forall k :: 0 <= k < |Pieces(s)| ==> Pieces(s)[k] == "" {
          assert forall k :: 0 <= k < |Pieces(rest)| ==> Pieces(rest)[k] == Pieces(s)[k + 1];
          assert rest == [] || OnlySlashes(rest);
          forall i | 0 <= i < |s| ensures s[i] == '/' {
            if i > 0 { assert s[i] == rest[i - 1]; }
          }
          assert OnlySlashes(s);
        }
      } else {
        assert head[0] == s[0] && s[0] != '/';
        assert !OnlySlashes(s) && s != [];
        assert Pieces(s)[0] == head != "";
      }
    }
  }

  /** Dropping trailing empties leaves nothing iff every piece is empty, and keeps a non-empty first piece. */
  lemma {:induction false} DropTrailingEmptyKeeps(ps: seq<string>)
    ensures |DropTrailingEmpty(ps)| == 0 <==> forall k :: 0 <= k < |ps| ==> ps[k] == ""
    ensures |DropTrailingEmpty(ps)| > 0 ==> DropTrailingEmpty(ps)[0] == ps[0]
  {
    if ps != [] && ps[|ps| - 1] == "" {
      var init := ps[..|ps| - 1];
      DropTrailingEmptyKeeps(init);
      assert forall k :: 0 <= k < |init| ==> init[k] == ps[k];
    }
  }

  /**
    The tenant is the prefix up to its first '/', except that a prefix made of
    slashes only leaves the split empty, so that the source throws.
  */
  lemma TenantIsBeforeFirstSlash(namespacePrefix: string)
    ensures Tenant(namespacePrefix).None? <==> OnlySlashes(namespacePrefix)
    ensures Tenant(namespacePrefix).Some? ==> Tenant(namespacePrefix).value == BeforeFirstSlash(namespacePrefix)
  {
    var s := namespacePrefix;
    if '/' !in s {
      NoSlashIsWhole(s);
    } else {
      var ps := Pieces(s);
      PiecesAllEmpty(s);
      DropTrailingEmptyKeeps(ps);
      FirstPiece(s);
      if OnlySlashes(s) {
        assert |DropTrailingEmpty(ps)| == 0;
      } else {
        assert s != [];
        assert |DropTrailingEmpty(ps)| > 0;
      }
    }
  }

  lemma {:induction false} BeforeFirstSlashOfConcat(p: string, q: string)
    requires '/' in p
    ensures BeforeFirstSlash(p + q) == BeforeFirstSlash(p)
  {
    if p[0] == '/' {
      assert (p + q)[0] == '/';
    } else {
      assert p[0] != '/' ==> '/' in p[1..] by {
        var k :| 0 <= k < |p| && p[k] == '/';
        assert p[1..][k - 1] == '/';
      }
      BeforeFirstSlashOfConcat(p[1..], q);
      assert (p + q)[1..] == p[1..] + q;
    }
  }

  /**
    When the prefix holds a slash, the namespace the driver creates belongs to
    the tenant the driver ensured: the admin service files it under that tenant.
  */
  lemma NamespaceBelongsToTenant(namespacePrefix: string, suffix: string)
    requires '/' in namespacePrefix && !OnlySlashes(namespacePrefix)
    ensures Tenant(namespacePrefix).Some?
    ensures TenantOfNamespace(NamespaceName(namespacePrefix, suffix)) == Tenant(namespacePrefix).value
  {
    TenantIsBeforeFirstSlash(namespacePrefix);
    BeforeFirstSlashOfConcat(namespacePrefix, "-" + suffix);
    assert namespacePrefix + "-" + suffix == namespacePrefix + ("-" + suffix);
  }

  // ---------------------------------------------------------------------------
  // Topic names
  // ---------------------------------------------------------------------------

  /** Java's rendering of a `null` reference inside a string concatenation. */
  function NamespaceText(namespace: Option<string>): string {
    match namespace
    case None => "null"
    case Some(ns) => ns
  }

  /** `topicType + "://" + namespace + "/test"`, with a null namespace printed as "null". */
  function TopicNamePrefix(topicType: string, namespace: Option<string>): (r: string)
    ensures |r| == |topicType| + 3 + |NamespaceText(namespace)| + 5
  {
    topicType + "://" + NamespaceText(namespace) + "/test"
  }

  /** The prefix can be taken apart again: the topic type, "://", the namespace and "/test". */
  lemma TopicNamePrefixParts(topicType: string, namespace: Option<string>)
    ensures var r := TopicNamePrefix(topicType, namespace);
            var n := |topicType| + 3;
            && r[..|topicType|] == topicType
            && r[|topicType|..n] == "://"
            && r[n..|r| - 5] == NamespaceText(namespace)
            && r[|r| - 5..] == "/test"
  {
    var r := TopicNamePrefix(topicType, namespace);
    var ns := NamespaceText(namespace);
    assert r == topicType + "://" + ns + "/test";
    var n := |topicType| + 3;
    assert r[..|topicType|] == topicType;
    assert r[|topicType|..n] == "://";
    assert r[n..|r| - 5] == ns;
  }

  /** The decimal digit `d`. */
  function DigitChar(d: nat): (c: char)
    requires d < 10
    ensures '0' <= c <= '9' && c as int - '0' as int == d
  {
    (48 + d) as char
  }

  /** Java's `Integer.toString(n)` for a non-negative `n`. */
  function NatToString(n: nat): (r: string)
    ensures |r| >= 1
    ensures n >= 10 ==> |r| >= 2
    ensures forall i :: 0 <= i < |r| ==> '0' <= r[i] <= '9'
  {
    if n < 10 then [DigitChar(n)] else NatToString(n / 10) + [DigitChar(n % 10)]
  }

  /** Different numbers have different decimal spellings. */
  lemma {:induction false} NatToStringInjective(n: nat, m: nat)
    requires NatToString(n) == NatToString(m)
    ensures n == m
  {
    if n < 10 && m < 10 {
      assert DigitChar(n) == NatToString(n)[0] == NatToString(m)[0] == DigitChar(m);
    } else if n >= 10 && m >= 10 {
      var sn, sm := NatToString(n), NatToString(m);
      assert sn == NatToString(n / 10) + [DigitChar(n % 10)];
      assert sm == NatToString(m / 10) + [DigitChar(m % 10)];
      assert DigitChar(n % 10) == sn[|sn| - 1] == sm[|sm| - 1] == DigitChar(m % 10);
      assert NatToString(n / 10) == sn[..|sn| - 1] == sm[..|sm| - 1] == NatToString(m / 10);
      NatToStringInjective(n / 10, m / 10);
    } else {
      assert false;
    }
  }

  const PARTITION_INFIX: string := "-partition-"

  /** The sub-topic of partition `i`: `topic + "-partition-" + i`. */
  function PartitionName(topic: string, i: nat): (r: string)
    ensures |r| == |topic| + |PARTITION_INFIX| + |NatToString(i)|
    ensures r[..|topic|] == topic && r[|topic|..|topic| + |PARTITION_INFIX|] == PARTITION_INFIX
    ensures r[|topic| + |PARTITION_INFIX|..] == NatToString(i)
  {
    topic + PARTITION_INFIX + NatToString(i)
  }

  /** Different partitions of one topic have different sub-topic names, none of them the topic itself. */
  lemma PartitionNamesDistinct(topic: string, i: nat, j: nat)
    ensures PartitionName(topic, i) == PartitionName(topic, j) <==> i == j
    ensures PartitionName(topic, i) != topic
  {
    var k := |topic| + |PARTITION_INFIX|;
    if PartitionName(topic, i) == PartitionName(topic, j) {
      assert NatToString(i) == PartitionName(topic, i)[k..] == PartitionName(topic, j)[k..] == NatToString(j);
      NatToStringInjective(i, j);
    }
    assert |PartitionName(topic, i)| > |topic|;
  }

  // ---------------------------------------------------------------------------
  // Timestamps
  // ---------------------------------------------------------------------------

  const NANOS_PER_MILLI: int := 1_000_000

  /** The largest millisecond count whose nanosecond value still fits a `long`. */
  const MAX_MILLIS: int := LONG_MAX / NANOS_PER_MILLI

  /**
    `TimeUnit.MILLISECONDS.toNanos(ms)`: the product by one million, saturated
    to the `long` range instead of wrapping around.
  */
  function ToNanos(ms: int): (ns: int)
    requires IsLong(ms)
    ensures IsLong(ns)
    ensures -MAX_MILLIS <= ms <= MAX_MILLIS ==> ns == ms * NANOS_PER_MILLI
    ensures ms > MAX_MILLIS ==> ns == LONG_MAX
    ensures ms < -MAX_MILLIS ==> ns == LONG_MIN
  {
    if ms > MAX_MILLIS then LONG_MAX
    else if ms < -MAX_MILLIS then LONG_MIN
    else ms * NANOS_PER_MILLI
  }

  /**
    Within the representable range the conversion loses nothing: the timestamp
    is a whole number of milliseconds, and dividing it back gives the publish time.
  */
  lemma {:induction false} ToNanosRoundTrip(ms: int)
    requires -MAX_MILLIS <= ms <= MAX_MILLIS
    ensures IsLong(ms)
    ensures ToNanos(ms) % NANOS_PER_MILLI == 0
    ensures ToNanos(ms) / NANOS_PER_MILLI == ms
  {
    assert ToNanos(ms) == ms * NANOS_PER_MILLI;
  }

  /** The conversion never reverses the order of two publish times. */
  lemma {:induction false} ToNanosMonotone(a: int, b: int)
    requires IsLong(a) && IsLong(b) && a <= b
    ensures ToNanos(a) <= ToNanos(b)
  {
    if -MAX_MILLIS <= a <= MAX_MILLIS && -MAX_MILLIS <= b <= MAX_MILLIS {
      assert a * NANOS_PER_MILLI <= b * NANOS_PER_MILLI;
    }
  }
}
