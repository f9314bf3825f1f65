/** Which connections of the automation diagram are drawn
    (the mount effect of AnimatedFlowConnections.jsx): the declared connections are sorted by
    importance with the engine's stable `Array.prototype.sort` (section 23.1.3.30 of ECMA-262,
    stable since ECMAScript 2019) and then truncated to a per-tier cap. */
module FlowSelection {
  import opened PerformanceTier

  datatype Importance = Primary | Secondary | Tertiary

  /** The `type` of a connection: a gently bowed "line" or a Bezier "curve". */
  datatype PathKind = Line | Curve

  datatype Connection = Connection(from: string, to: string, kind: PathKind, importance: Importance)

  /** The comparator's `importanceOrder` table. */
  function Weight(i: Importance): nat {
    match i
    case Primary => 3
    case Secondary => 2
    case Tertiary => 1
  }

  /** The eleven declared connections, in declaration order: three primary, then five
      secondary, then three tertiary. */
  const Definitions: seq<Connection> := PrimaryDefinitions + SecondaryDefinitions + TertiaryDefinitions

  const PrimaryDefinitions: seq<Connection> := [
    Connection("node-trigger", "node-ai", Line, Primary),
    Connection("node-ai", "node-action", Line, Primary),
    Connection("node-action", "node-notify", Line, Primary)
  ]

  const SecondaryDefinitions: seq<Connection> := [
    Connection("node-action", "node-pipeline", Curve, Secondary),
    Connection("node-pipeline", "node-email", Curve, Secondary),
    Connection("node-pipeline", "node-chat", Curve, Secondary),
    Connection("node-action", "node-whatsapp", Curve, Secondary),
    Connection("node-action", "node-targeting", Curve, Secondary)
  ]

  const TertiaryDefinitions: seq<Connection> := [
    Connection("node-whatsapp", "node-api", Curve, Tertiary),
    Connection("node-api", "node-crm", Line, Tertiary),
    Connection("node-targeting", "node-forms", Curve, Tertiary)
  ]

  function Min(a: int, b: int): int {
    if a <= b then a else b
  }

  /** The per-tier cap on drawn connections. */
  function ConnectionLimit(t: Tier, available: nat): nat {
    match t
    case Low => 6
    case Medium => 10
    case High => Min(available, 12)
  }

  /** Ranks never increase along `s`. */
  ghost predicate SortedByImportance(s: seq<Connection>) {
    forall i, j :: 0 <= i < j < |s| ==> Weight(s[i].importance) >= Weight(s[j].importance)
  }

  /** The connections of `s` with importance `imp`, in their order in `s`. */
  function Only(s: seq<Connection>, imp: Importance): (r: seq<Connection>)
    ensures |r| <= |s|
    ensures forall k :: 0 <= k < |r| ==> r[k].importance == imp
  {
    if |s| == 0 then []
    else if s[0].importance == imp then [s[0]] + Only(s[1..], imp)
    else Only(s[1..], imp)
  }

  /** Reference order: all primary, then all secondary, then all tertiary connections,
      each group in declaration order. A stable descending sort must produce exactly this. */
  function Buckets(s: seq<Connection>): seq<Connection> {
    Only(s, Primary) + Only(s, Secondary) + Only(s, Tertiary)
  }

  /** One step of a stable insertion sort with comparator `Weight(b) - Weight(a)`: `c`, which
      precedes every element of `s` in the input, goes before the first element it does not
      outrank, so it stays ahead of the elements of equal weight. */
  function Insert(c: Connection, s: seq<Connection>): seq<Connection> {
    if |s| == 0 || Weight(s[0].importance) <= Weight(c.importance) then [c] + s
    else [s[0]] + Insert(c, s[1..])
  }

  function SortByImportance(s: seq<Connection>): seq<Connection> {
    if |s| == 0 then [] else Insert(s[0], SortByImportance(s[1..]))
  }

  /** The connections drawn at tier `t`: the first `ConnectionLimit` of the sorted list
      (`slice` keeps everything when the cap exceeds the length). */
  function Select(t: Tier, defs: seq<Connection>): (r: seq<Connection>)
    ensures |r| == Min(ConnectionLimit(t, |defs|), |defs|)
    ensures t == High ==> |r| == Min(|defs|, 12)
    ensures SortedByImportance(r)
    ensures forall imp :: IsPrefix(Only(r, imp), Only(defs, imp))
    ensures IsPrefix(r, Buckets(defs))
  {
    var sorted := SortByImportance(defs);
    SortIsBuckets(defs);
    BucketsLength(defs);
    BucketsSorted(defs);
    var n := Min(ConnectionLimit(t, |defs|), |defs|);
    forall imp ensures IsPrefix(Only(sorted[..n], imp), Only(defs, imp)) {
      PrefixOfBuckets(defs, n, imp);
    }
    sorted[..n]
  }

  predicate IsPrefix<T(==)>(a: seq<T>, b: seq<T>) {
    |a| <= |b| && a == b[..|a|]
  }

  lemma OnlyAppend(a: seq<Connection>, b: seq<Connection>, imp: Importance)
    ensures Only(a + b, imp) == Only(a, imp) + Only(b, imp)
  {
    if |a| > 0 {
      assert (a + b)[1..] == a[1..] + b;
      OnlyAppend(a[1..], b, imp);
    } else {
      assert a + b == b;
    }
  }

  /** Every connection of `s` has importance `imp`. */
  predicate Uniform(s: seq<Connection>, imp: Importance) {
    forall k :: 0 <= k < |s| ==> s[k].importance == imp
  }

  lemma OnlyOfUniform(s: seq<Connection>, imp: Importance, other: Importance)
    requires Uniform(s, imp)
    ensures Only(s, imp) == s
    ensures other != imp ==> Only(s, other) == []
  {
    if |s| > 0 {
      OnlyOfUniform(s[1..], imp, other);
    }
  }

  /** Inserting into `a + b`, where `c` is outranked by every element of `a` and outranks or
      ties the first element of `b`, puts `c` exactly between the two. */
  lemma {:induction false} InsertBetween(c: Connection, a: seq<Connection>, b: seq<Connection>)
    requires forall k :: 0 <= k < |a| ==> Weight(a[k].importance) > Weight(c.importance)
    requires |b| == 0 || Weight(b[0].importance) <= Weight(c.importance)
    ensures Insert(c, a + b) == a + ([c] + b)
  {
    if |a| == 0 {
      assert a + b == b;
      assert a + ([c] + b) == [c] + b;
    } else {
      assert (a + b)[0] == a[0];
      assert (a + b)[1..] == a[1..] + b;
      InsertBetween(c, a[1..], b);
      assert [a[0]] + (a[1..] + ([c] + b)) == a + ([c] + b);
    }
  }

  lemma {:induction false} InsertPermutes(c: Connection, s: seq<Connection>)
    ensures multiset(Insert(c, s)) == multiset(s) + multiset{c}
  {
    if |s| > 0 && Weight(s[0].importance) > Weight(c.importance) {
      InsertPermutes(c, s[1..]);
      assert s == [s[0]] + s[1..];
    }
  }

  /** The sort only reorders: it neither drops nor duplicates a connection. */
  lemma {:induction false} SortPermutes(s: seq<Connection>)
    ensures multiset(SortByImportance(s)) == multiset(s)
  {
    if |s| > 0 {
      SortPermutes(s[1..]);
      InsertPermutes(s[0], SortByImportance(s[1..]));
      assert s == [s[0]] + s[1..];
    }
  }

  /** The insertion sort is stable: it yields the reference order. */
  lemma {:induction false} SortIsBuckets(s: seq<Connection>)
    ensures SortByImportance(s) == Buckets(s)
  {
    if |s| > 0 {
      var c, rest := s[0], s[1..];
      SortIsBuckets(rest);
      var p, q, t := Only(rest, Primary), Only(rest, Secondary), Only(rest, Tertiary);
      InsertIntoBuckets(c, p, q, t);
      OnlyCons(s, Primary);
      OnlyCons(s, Secondary);
      OnlyCons(s, Tertiary);
    }
  }

  lemma OnlyCons(s: seq<Connection>, imp: Importance)
    requires |s| > 0
    ensures Only(s, imp) == (if s[0].importance == imp then [s[0]] else []) + Only(s[1..], imp)
  {
  }

  /** Inserting a connection into blocks of primary, secondary and tertiary connections puts
      it at the front of its own block. */
  lemma InsertIntoBuckets(c: Connection, p: seq<Connection>, q: seq<Connection>, t: seq<Connection>)
    requires Uniform(p, Primary) && Uniform(q, Secondary) && Uniform(t, Tertiary)
    ensures c.importance == Primary ==> Insert(c, p + q + t) == ([c] + p) + q + t
    ensures c.importance == Secondary ==> Insert(c, p + q + t) == p + ([c] + q) + t
    ensures c.importance == Tertiary ==> Insert(c, p + q + t) == p + q + ([c] + t)
  {
    match c.importance
    case Primary =>
      InsertPrimary(c, p + q + t);
    case Secondary =>
      assert |q + t| == 0 || (q + t)[0].importance != Primary by {
        if |q| > 0 {
          assert (q + t)[0] == q[0];
        } else if |t| > 0 {
          assert (q + t)[0] == t[0];
        }
      }
      InsertSecondary(c, p, q + t);
      assert p + q + t == p + (q + t);
      assert p + ([c] + (q + t)) == p + ([c] + q) + t;
    case Tertiary =>
      assert forall k :: 0 <= k < |p + q| ==> (p + q)[k].importance != Tertiary by {
        forall k | 0 <= k < |p + q| ensures (p + q)[k].importance != Tertiary {
          if k < |p| {
            assert (p + q)[k] == p[k];
          } else {
            assert (p + q)[k] == q[k - |p|];
          }
        }
      }
      InsertTertiary(c, p + q, t);
  }

  lemma InsertPrimary(c: Connection, s: seq<Connection>)
    requires c.importance == Primary
    ensures Insert(c, s) == [c] + s
  {
  }

  lemma InsertSecondary(c: Connection, p: seq<Connection>, rest: seq<Connection>)
    requires c.importance == Secondary
    requires forall k :: 0 <= k < |p| ==> p[k].importance == Primary
    requires |rest| == 0 || rest[0].importance != Primary
    ensures Insert(c, p + rest) == p + ([c] + rest)
  {
    InsertBetween(c, p, rest);
  }

  lemma InsertTertiary(c: Connection, pq: seq<Connection>, t: seq<Connection>)
    requires c.importance == Tertiary
    requires forall k :: 0 <= k < |pq| ==> pq[k].importance != Tertiary
    requires |t| == 0 || t[0].importance == Tertiary
    ensures Insert(c, pq + t) == pq + ([c] + t)
  {
    InsertBetween(c, pq, t);
  }

  lemma BucketsSorted(s: seq<Connection>)
    ensures SortedByImportance(Buckets(s))
  {
  }

  /** A prefix of the reference order keeps, for each importance, a prefix of that
      importance's connections in declaration order. */
  lemma PrefixOfBuckets(s: seq<Connection>, n: nat, imp: Importance)
    requires n <= |s|
    ensures n <= |Buckets(s)|
    ensures IsPrefix(Only(Buckets(s)[..n], imp), Only(s, imp))
  {
    BucketsLength(s);
    var p, q, t := Only(s, Primary), Only(s, Secondary), Only(s, Tertiary);
    var b := Buckets(s);
    var pre := b[..n];
    var rest := b[n..];
    assert b == pre + rest;
    OnlyAppend(pre, rest, imp);
    OnlyAppend(p + q, t, imp);
    OnlyAppend(p, q, imp);
    OnlyOfUniform(p, Primary, imp);
    OnlyOfUniform(q, Secondary, imp);
    OnlyOfUniform(t, Tertiary, imp);
    assert Only(b, imp) == Only(s, imp);
  }

  lemma {:induction false} BucketsLength(s: seq<Connection>)
    ensures |Buckets(s)| == |s|
  {
    if |s| > 0 {
      BucketsLength(s[1..]);
    }
  }

  /** The declared list is already in reference order: primary, then secondary, then
      tertiary connections. */
  lemma DefinitionsInReferenceOrder()
    ensures Buckets(Definitions) == Definitions
  {
    var p, q, t := PrimaryDefinitions, SecondaryDefinitions, TertiaryDefinitions;
    assert Uniform(p, Primary);
    assert Uniform(q, Secondary);
    assert Uniform(t, Tertiary);
    BucketsOfBlocks(p, q, t);
  }

  /** Blocks already in reference order are left as they are. */
  lemma BucketsOfBlocks(p: seq<Connection>, q: seq<Connection>, t: seq<Connection>)
    requires Uniform(p, Primary) && Uniform(q, Secondary) && Uniform(t, Tertiary)
    ensures Buckets(p + q + t) == p + q + t
  {
    OnlyOfBlocks(p, q, t, Primary);
    OnlyOfBlocks(p, q, t, Secondary);
    OnlyOfBlocks(p, q, t, Tertiary);
    OnlyOfUniform(p, Primary, Secondary);
    OnlyOfUniform(p, Primary, Tertiary);
    OnlyOfUniform(q, Secondary, Primary);
    OnlyOfUniform(q, Secondary, Tertiary);
    OnlyOfUniform(t, Tertiary, Primary);
    OnlyOfUniform(t, Tertiary, Secondary);
    assert p + [] + [] == p;
    assert [] + q + [] == q;
    assert [] + [] + t == t;
  }

  lemma OnlyOfBlocks(p: seq<Connection>, q: seq<Connection>, t: seq<Connection>, imp: Importance)
    ensures Only(p + q + t, imp) == Only(p, imp) + Only(q, imp) + Only(t, imp)
  {
    OnlyAppend(p + q, t, imp);
    OnlyAppend(p, q, imp);
  }

  /** So the low tier keeps the three primary connections and the first three secondary
      ones, the medium tier drops only the last tertiary connection and the high tier keeps
      all eleven. */
  lemma SelectionOfDefinitions()
    ensures Select(Low, Definitions) == Definitions[..6]
    ensures Select(Medium, Definitions) == Definitions[..10]
    ensures Select(High, Definitions) == Definitions
    ensures Select(Low, Definitions)[5] == Connection("node-pipeline", "node-chat", Curve, Secondary)
  {
    DefinitionsInReferenceOrder();
    SelectOfOrdered(Low, Definitions);
    SelectOfOrdered(Medium, Definitions);
    SelectOfOrdered(High, Definitions);
  }

  /** On a list already in reference order, selection is plain truncation. */
  lemma SelectOfOrdered(t: Tier, defs: seq<Connection>)
    requires Buckets(defs) == defs
    ensures Select(t, defs) == defs[..Min(ConnectionLimit(t, |defs|), |defs|)]
  {
    SortIsBuckets(defs);
  }
}
