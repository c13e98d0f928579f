/** The cache key of a storage configuration: eight fields joined by a bar
    (`identity` of internal/storagerouter), and which configurations share one. */
module StorageIdentity {
  import opened StorageConfig

  function Join(fields: seq<string>): string {
    if fields == [] then "" else if |fields| == 1 then fields[0] else fields[0] + "|" + Join(fields[1..])
  }

  /** The five fields in front of the digest. */
  function Lead(b: Backend): seq<string> { [b.mode, b.endpoint, b.region, b.bucket, b.accessKeyId] }

  function Flag(ssl: bool): string { if ssl then "true" else "false" }

  /** `digest` stands for hex(sha256(.)). */
  function Identity(rs: Resolved, digest: string -> string): string {
    Join(Lead(rs.backend) + [digest(rs.secretKey), Flag(rs.backend.useSsl), rs.backend.publicPrefix])
  }

  predicate NoBar(s: string) { '|' !in s }

  predicate AllNoBar(xs: seq<string>) { forall k :: 0 <= k < |xs| ==> NoBar(xs[k]) }

  predicate IsHex(s: string) { forall k :: 0 <= k < |s| ==> '0' <= s[k] <= '9' || 'a' <= s[k] <= 'f' }

  ghost predicate HexDigest(digest: string -> string) { forall s :: IsHex(digest(s)) }

  /** The digest is hexadecimal and has no collision. */
  ghost predicate IsDigest(digest: string -> string) {
    HexDigest(digest) && forall a, b :: digest(a) == digest(b) ==> a == b
  }

  // ---------------------------------------------------------------------
  // Which configurations share a key
  // ---------------------------------------------------------------------

  predicate LeadingBar(b: Backend) { !AllNoBar(Lead(b)) }

  predicate CutAt(prefix: string, u: string, secret: string, ssl: bool, v: string, digest: string -> string) {
    (u == "" || u[|u| - 1] == '|') && prefix == u + (digest(secret) + "|" + (Flag(ssl) + "|" + v))
  }

  /** The prefix holds, between bars, the digest of some secret followed by a flag. */
  ghost predicate PrefixSplits(prefix: string, digest: string -> string) {
    exists u, secret, ssl, v :: CutAt(prefix, u, secret, ssl, v, digest)
  }

  ghost predicate Ambiguous(b: Backend, digest: string -> string) {
    LeadingBar(b) || PrefixSplits(b.publicPrefix, digest)
  }

  predicate SameKeyed(a: Resolved, b: Resolved, digest: string -> string) {
    a.backend == b.backend && digest(a.secretKey) == digest(b.secretKey)
  }

  // ---------------------------------------------------------------------
  // Joining and taking apart
  // ---------------------------------------------------------------------

  lemma {:induction false} JoinAppend(xs: seq<string>, ys: seq<string>)
    requires xs != [] && ys != []
    ensures Join(xs + ys) == Join(xs) + "|" + Join(ys)
  {
    if |xs| == 1 {
      assert (xs + ys)[1..] == ys;
    } else {
      assert (xs + ys)[1..] == xs[1..] + ys;
      JoinAppend(xs[1..], ys);
      assert xs[0] + "|" + (Join(xs[1..]) + "|" + Join(ys)) == xs[0] + "|" + Join(xs[1..]) + "|" + Join(ys);
    }
  }

  /** What follows the leading fields. */
  function Tail(secretDigest: string, ssl: bool, prefix: string): string {
    secretDigest + "|" + (Flag(ssl) + "|" + prefix)
  }

  lemma IdentityParts(rs: Resolved, digest: string -> string)
    ensures Identity(rs, digest) == Join(Lead(rs.backend)) + "|" + Tail(digest(rs.secretKey), rs.backend.useSsl, rs.backend.publicPrefix)
  {
    var tail := [digest(rs.secretKey), Flag(rs.backend.useSsl), rs.backend.publicPrefix];
    JoinAppend(Lead(rs.backend), tail);
    assert tail[1..] == [Flag(rs.backend.useSsl), rs.backend.publicPrefix] && tail[1..][1..] == [rs.backend.publicPrefix];
    assert Join(tail[1..]) == Flag(rs.backend.useSsl) + "|" + rs.backend.publicPrefix;
    assert Join(tail) == tail[0] + "|" + Join(tail[1..]);
  }

  /** A text without a bar reaches to the first bar of any text it starts. */
  lemma FirstBar(x: string, s: string, y: string, t: string)
    requires NoBar(x) && x + "|" + s == y + "|" + t
    ensures |y| >= |x|
    ensures |y| == |x| ==> y == x && s == t
    ensures |y| > |x| ==> y == x + "|" + y[|x| + 1..] && s == y[|x| + 1..] + "|" + t
    ensures NoBar(y) ==> y == x && s == t
  {
    var all := x + "|" + s;
    assert all[|x|] == '|' && all[|y|] == '|';
    assert forall k :: 0 <= k < |x| ==> all[k] == x[k] && x[k] in x;
    assert x == all[..|x|] && y == all[..|y|] && s == all[|x| + 1..] && t == all[|y| + 1..];
    if |y| > |x| {
      assert y[|x|] == '|' && '|' in y;
      assert y == y[..|x|] + [y[|x|]] + y[|x| + 1..];
      assert all[|x| + 1..] == y[|x| + 1..] + "|" + t;
    }
  }

  function Bars(s: string): nat {
    if s == "" then 0 else Bars(s[..|s| - 1]) + if s[|s| - 1] == '|' then 1 else 0
  }

  lemma {:induction false} BarsAppend(a: string, b: string)
    ensures Bars(a + b) == Bars(a) + Bars(b)
  {
    if b == "" {
      assert a + b == a;
    } else {
      assert (a + b)[..|a + b| - 1] == a + b[..|b| - 1];
      BarsAppend(a, b[..|b| - 1]);
    }
  }

  lemma {:induction false} NoBars(s: string)
    ensures Bars(s) == 0 <==> NoBar(s)
  {
    if s != "" {
      NoBars(s[..|s| - 1]);
      assert s == s[..|s| - 1] + [s[|s| - 1]];
    }
  }

  lemma BarsJoined(a: string, b: string)
    ensures Bars(a + "|" + b) == Bars(a) + 1 + Bars(b)
  {
    BarsAppend(a + "|", b);
    BarsAppend(a, "|");
    assert "|"[..0] == "" && Bars("|") == 1;
  }

  lemma {:induction false} JoinBars(xs: seq<string>)
    requires xs != []
    ensures Bars(Join(xs)) >= |xs| - 1
    ensures Bars(Join(xs)) == |xs| - 1 <==> AllNoBar(xs)
  {
    NoBars(xs[0]);
    if |xs| > 1 {
      JoinBars(xs[1..]);
      BarsJoined(xs[0], Join(xs[1..]));
      assert forall k :: 0 < k < |xs| ==> xs[k] == xs[1..][k - 1];
    }
  }

  /** A text with as many bars as the fields need, where the joined fields stand:
      it is them, or they and a bar and more. */
  lemma {:induction false} Peel(xs: seq<string>, s: string, w: string, t: string)
    requires xs != [] && AllNoBar(xs) && Bars(w) >= |xs| - 1 && Join(xs) + "|" + s == w + "|" + t
    ensures (w == Join(xs) && s == t) || exists q :: s == q + "|" + t
  {
    if |xs| == 1 {
      FirstBar(xs[0], s, w, t);
    } else {
      var rest := Join(xs[1..]);
      assert xs[0] + "|" + rest + "|" + s == xs[0] + "|" + (rest + "|" + s);
      FirstBar(xs[0], rest + "|" + s, w, t);
      NoBars(w);
      var v := w[|xs[0]| + 1..];
      BarsJoined(xs[0], v);
      NoBars(xs[0]);
      assert AllNoBar(xs[1..]);
      Peel(xs[1..], s, v, t);
    }
  }

  /** Two lists of bar-free texts with the same join are the same. */
  lemma {:induction false} JoinInjective(xs: seq<string>, ys: seq<string>)
    requires |xs| == |ys| > 0 && Join(xs) == Join(ys) && AllNoBar(xs) && AllNoBar(ys)
    ensures xs == ys
  {
    if |xs| > 1 {
      FirstBar(xs[0], Join(xs[1..]), ys[0], Join(ys[1..]));
      JoinInjective(xs[1..], ys[1..]);
      assert xs == [xs[0]] + xs[1..] && ys == [ys[0]] + ys[1..];
    }
  }

  // ---------------------------------------------------------------------
  // An unambiguous configuration has its key to itself
  // ---------------------------------------------------------------------

  lemma FlagFacts(ssl: bool)
    ensures NoBar(Flag(ssl)) && !IsHex(Flag(ssl))
  {
    assert Flag(ssl)[if ssl then 0 else 2] == if ssl then 't' else 'l';
  }

  lemma HexNoBar(s: string)
    requires IsHex(s)
    ensures NoBar(s)
  {
  }

  lemma TailInjective(d: string, ssl: bool, p: string, e: string, tls: bool, q: string)
    requires IsHex(d) && IsHex(e) && Tail(d, ssl, p) == Tail(e, tls, q)
    ensures d == e && ssl == tls && p == q
  {
    HexNoBar(d);
    HexNoBar(e);
    FirstBar(d, Flag(ssl) + "|" + p, e, Flag(tls) + "|" + q);
    FlagFacts(ssl);
    FlagFacts(tls);
    FirstBar(Flag(ssl), p, Flag(tls), q);
    assert Flag(true) != Flag(false) by { assert |Flag(true)| != |Flag(false)|; }
  }

  /** The same behind the flag. */
  lemma FlagInside(ssl: bool, p: string, r: string, secret: string, tls: bool, v: string, digest: string -> string)
    requires Flag(ssl) + "|" + p == r + "|" + Tail(digest(secret), tls, v)
    ensures PrefixSplits(p, digest)
  {
    var t := Tail(digest(secret), tls, v);
    FlagFacts(ssl);
    FirstBar(Flag(ssl), p, r, t);
    if |r| == |Flag(ssl)| {
      assert "" + t == t;
      assert CutAt(p, "", secret, tls, v, digest);
    } else {
      var u := r[|Flag(ssl)| + 1..] + "|";
      assert CutAt(p, u, secret, tls, v, digest);
    }
  }

  /** A tail that starts inside another one starts in its prefix: its digest is not
      the other's flag. */
  lemma TailInside(d: string, ssl: bool, p: string, q: string, secret: string, tls: bool, v: string, digest: string -> string)
    requires HexDigest(digest) && IsHex(d) && Tail(d, ssl, p) == q + "|" + Tail(digest(secret), tls, v)
    ensures PrefixSplits(p, digest)
  {
    var e := digest(secret);
    HexNoBar(d);
    HexNoBar(e);
    FlagFacts(ssl);
    FirstBar(d, Flag(ssl) + "|" + p, q, Tail(e, tls, v));
    if |q| == |d| {
      FirstBar(Flag(ssl), p, e, Flag(tls) + "|" + v);
      assert false;
    }
    FlagInside(ssl, p, q[|d| + 1..], secret, tls, v, digest);
  }

  lemma SharedMeans(a: Resolved, b: Resolved, digest: string -> string)
    requires HexDigest(digest) && !LeadingBar(a.backend) && Identity(a, digest) == Identity(b, digest)
    ensures SameKeyed(a, b, digest) || PrefixSplits(a.backend.publicPrefix, digest)
  {
    IdentityParts(a, digest);
    IdentityParts(b, digest);
    var xs, ys := Lead(a.backend), Lead(b.backend);
    var s := Tail(digest(a.secretKey), a.backend.useSsl, a.backend.publicPrefix);
    var t := Tail(digest(b.secretKey), b.backend.useSsl, b.backend.publicPrefix);
    JoinBars(ys);
    Peel(xs, s, Join(ys), t);
    if q :| s == q + "|" + t {
      TailInside(digest(a.secretKey), a.backend.useSsl, a.backend.publicPrefix, q,
                 b.secretKey, b.backend.useSsl, b.backend.publicPrefix, digest);
    } else {
      JoinBars(xs);
      JoinInjective(xs, ys);
      assert xs[0] == ys[0] && xs[1] == ys[1] && xs[2] == ys[2] && xs[3] == ys[3] && xs[4] == ys[4];
      TailInjective(digest(a.secretKey), a.backend.useSsl, a.backend.publicPrefix,
                    digest(b.secretKey), b.backend.useSsl, b.backend.publicPrefix);
    }
  }

  // ---------------------------------------------------------------------
  // An ambiguous one has a twin
  // ---------------------------------------------------------------------

  function WithLead(rs: Resolved, lead: seq<string>): Resolved
    requires |lead| == 5
  {
    rs.(backend := rs.backend.(mode := lead[0], endpoint := lead[1], region := lead[2], bucket := lead[3], accessKeyId := lead[4]))
  }

  lemma WithLeadIdentity(rs: Resolved, lead: seq<string>, digest: string -> string)
    requires |lead| == 5 && Join(lead) == Join(Lead(rs.backend))
    ensures Identity(WithLead(rs, lead), digest) == Identity(rs, digest)
  {
    IdentityParts(rs, digest);
    IdentityParts(WithLead(rs, lead), digest);
    assert Lead(WithLead(rs, lead).backend) == lead;
  }

  /** A bar inside a field may as well be the one that ends it. */
  lemma {:induction false} JoinMove(xs: seq<string>, k: nat, x: string, y: string)
    requires k + 1 < |xs| && xs[k] == x + "|" + y
    ensures Join(xs[k := x][k + 1 := y + "|" + xs[k + 1]]) == Join(xs)
  {
    var ys := xs[k := x][k + 1 := y + "|" + xs[k + 1]];
    if k > 0 {
      assert xs[1..][k - 1] == xs[k] && xs[1..][k] == xs[k + 1];
      assert ys[1..] == xs[1..][k - 1 := x][k := y + "|" + xs[1..][k]];
      JoinMove(xs[1..], k - 1, x, y);
    } else {
      var rest := xs[2..];
      assert xs[1..][1..] == rest && ys[1..][1..] == rest;
      if rest == [] {
        assert xs[1..] == [xs[1]] && ys[1..] == [ys[1]];
        assert x + "|" + (y + "|" + xs[1]) == x + "|" + y + "|" + xs[1];
      } else {
        assert x + "|" + (y + "|" + xs[1] + "|" + Join(rest)) == x + "|" + y + "|" + (xs[1] + "|" + Join(rest));
      }
    }
  }

  /** The last leading field gives what stands before its bar to its left neighbour. */
  lemma MoveLeft(xs: seq<string>, x: string, y: string)
    requires |xs| == 5 && xs[4] == x + "|" + y
    ensures Join(xs[3 := xs[3] + "|" + x][4 := y]) == Join(xs)
  {
    var ys := xs[3 := xs[3] + "|" + x][4 := y];
    JoinMove(ys, 3, xs[3], x);
    assert ys[3 := xs[3]][4 := x + "|" + y] == xs;
  }

  lemma BarMoved(xs: seq<string>, k: nat, x: string, y: string) returns (ys: seq<string>)
    requires |xs| == 5 && k < 5 && xs[k] == x + "|" + y
    ensures |ys| == 5 && ys != xs && Join(ys) == Join(xs)
  {
    if k < 4 {
      ys := xs[k := x][k + 1 := y + "|" + xs[k + 1]];
      JoinMove(xs, k, x, y);
      assert ys[k] != xs[k];
    } else {
      ys := xs[3 := xs[3] + "|" + x][4 := y];
      MoveLeft(xs, x, y);
      assert ys[4] != xs[4];
    }
  }

  lemma LeadingTwin(a: Resolved, digest: string -> string) returns (b: Resolved)
    requires LeadingBar(a.backend)
    ensures b.backend != a.backend && Identity(b, digest) == Identity(a, digest)
  {
    var xs := Lead(a.backend);
    var k :| 0 <= k < 5 && !NoBar(xs[k]);
    var i :| 0 <= i < |xs[k]| && xs[k][i] == '|';
    var x, y := xs[k][..i], xs[k][i + 1..];
    assert xs[k] == x + "|" + y;
    var ys := BarMoved(xs, k, x, y);
    b := WithLead(a, ys);
    WithLeadIdentity(a, ys, digest);
    assert Lead(b.backend) == ys;
  }

  lemma {:induction false} JoinLast(xs: seq<string>, z: string)
    requires xs != []
    ensures Join(xs[|xs| - 1 := xs[|xs| - 1] + z]) == Join(xs) + z
  {
    var ys := xs[|xs| - 1 := xs[|xs| - 1] + z];
    if |xs| > 1 {
      assert ys[1..] == xs[1..][|xs| - 2 := xs[1..][|xs| - 2] + z];
      JoinLast(xs[1..], z);
    }
  }

  lemma PrefixTwin(a: Resolved, digest: string -> string) returns (b: Resolved)
    requires PrefixSplits(a.backend.publicPrefix, digest)
    ensures b.backend != a.backend && Identity(b, digest) == Identity(a, digest)
  {
    var u, secret, ssl, v :| CutAt(a.backend.publicPrefix, u, secret, ssl, v, digest);
    var d, f := digest(a.secretKey), Flag(a.backend.useSsl);
    var t := Tail(digest(secret), ssl, v);
    var z := "|" + d + "|" + f + (if u == "" then "" else "|" + u[..|u| - 1]);
    var lead := Lead(a.backend)[4 := a.backend.accessKeyId + z];
    b := WithLead(a, lead);
    b := b.(secretKey := secret, backend := b.backend.(useSsl := ssl, publicPrefix := v));
    assert Lead(b.backend) == lead;
    JoinLast(Lead(a.backend), z);
    IdentityParts(a, digest);
    IdentityParts(b, digest);
    TwinTail(Join(Lead(a.backend)), d, f, u, t, z);
    assert b.backend.accessKeyId != a.backend.accessKeyId by { assert |z| > 0; }
  }

  lemma TwinTail(j: string, d: string, f: string, u: string, t: string, z: string)
    requires u == "" || u[|u| - 1] == '|'
    requires z == "|" + d + "|" + f + (if u == "" then "" else "|" + u[..|u| - 1])
    ensures j + z + "|" + t == j + "|" + (d + "|" + (f + "|" + (u + t)))
  {
    if u != "" { assert u == u[..|u| - 1] + "|"; }
  }

  /** Another backend or digest shares the key of `a` exactly when one of its first
      five fields holds a bar, or its prefix holds a digest and a flag between bars. */
  lemma IdentityExact(a: Resolved, digest: string -> string)
    requires HexDigest(digest)
    ensures (exists b :: Identity(b, digest) == Identity(a, digest) && !SameKeyed(a, b, digest)) <==> Ambiguous(a.backend, digest)
  {
    if Ambiguous(a.backend, digest) {
      var b;
      if LeadingBar(a.backend) { b := LeadingTwin(a, digest); } else { b := PrefixTwin(a, digest); }
      assert !SameKeyed(a, b, digest);
    } else {
      forall b | Identity(b, digest) == Identity(a, digest) ensures SameKeyed(a, b, digest) {
        SharedMeans(a, b, digest);
      }
    }
  }

  /** With a collision-free digest: exactly then another configuration shares it. */
  lemma IdentityShared(a: Resolved, digest: string -> string)
    requires IsDigest(digest)
    ensures (exists b :: b != a && Identity(b, digest) == Identity(a, digest)) <==> Ambiguous(a.backend, digest)
  {
    IdentityExact(a, digest);
    forall b | b != a ensures !SameKeyed(a, b, digest) { }
    if Ambiguous(a.backend, digest) {
      var b :| Identity(b, digest) == Identity(a, digest) && !SameKeyed(a, b, digest);
      assert b != a;
    }
  }

  // ---------------------------------------------------------------------
  // Two inputs the store accepts
  // ---------------------------------------------------------------------

  // The bar stands in the region and in the bucket, which nothing looks at
  // before a store is built.
  const FIRST_TWIN := Backend("s3", "e", "a|b", "c", "", true, "")
  const SECOND_TWIN := Backend("s3", "e", "a", "b|c", "", true, "")

  lemma IdentityCollides(digest: string -> string)
    ensures IsValid(Input(FIRST_TWIN, true, "", "")) && IsValid(Input(SECOND_TWIN, true, "", ""))
    ensures FIRST_TWIN != SECOND_TWIN && Identity(Resolved(FIRST_TWIN, ""), digest) == Identity(Resolved(SECOND_TWIN, ""), digest)
  {
    var xs := Lead(FIRST_TWIN);
    assert xs[2] == "a" + "|" + "b";
    JoinMove(xs, 2, "a", "b");
    assert xs[2 := "a"][3 := "b" + "|" + "c"] == Lead(SECOND_TWIN) by { assert "b" + "|" + "c" == "b|c"; }
    WithLeadIdentity(Resolved(FIRST_TWIN, ""), Lead(SECOND_TWIN), digest);
    assert FIRST_TWIN.bucket != SECOND_TWIN.bucket by { assert |"c"| != |"b|c"|; }
  }
}
