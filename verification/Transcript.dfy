/** The byte strings that signatures cover: the pairing transcript and the signed sync state. */
module Transcript {
  import opened Bytes
  import Order

  datatype Hello = Hello(pubkey: seq<byte>, nonce: seq<byte>, machineId: seq<byte>, displayName: seq<byte>)

  /** A length that survives the cast to 32 bits. */
  predicate Short(field: seq<byte>)
  {
    |field| < 0x1_0000_0000
  }

  predicate Encodable(h: Hello)
  {
    Short(h.pubkey) && Short(h.nonce) && Short(h.machineId) && Short(h.displayName)
  }

  function AsText(s: seq<byte>): (t: string)
    ensures |t| == |s| && forall i :: 0 <= i < |s| ==> t[i] == s[i] as char
  {
    seq(|s|, i requires 0 <= i < |s| => s[i] as char)
  }

  /** `a <= b` byte by byte. */
  predicate AtMost(a: seq<byte>, b: seq<byte>)
  {
    !Order.Less(AsText(b), AsText(a))
  }

  lemma AtMostTotal(a: seq<byte>, b: seq<byte>)
    ensures AtMost(a, b) || AtMost(b, a)
    ensures AtMost(a, b) && AtMost(b, a) <==> a == b
  {
    Order.LessTrichotomous(AsText(a), AsText(b));
    if AsText(a) == AsText(b) {
      assert forall i :: 0 <= i < |a| ==> a[i] as char == AsText(a)[i] == b[i] as char;
    }
  }

  /** Keys are compared byte by byte from the front; a proper prefix comes first. */
  lemma AtMostByFirstDifference(a: seq<byte>, b: seq<byte>, k: nat)
    requires k <= |a| && k < |b| && a[..k] == b[..k] && (k == |a| || a[k] < b[k])
    ensures AtMost(a, b) && !AtMost(b, a)
  {
    var s, t := AsText(a), AsText(b);
    assert forall i :: 0 <= i < k ==> s[i] == a[..k][i] as char == b[..k][i] as char == t[i];
    assert s[..k] == t[..k];
    assert Order.Decides(s, t, k);
    Order.LessByFirstDifference(s, t);
    Order.LessTrichotomous(s, t);
  }

  // ---------- encoding ----------

  function Fields(fields: seq<seq<byte>>): seq<byte>
  {
    if fields == [] then [] else Fields(fields[..|fields| - 1]) + Prefixed(fields[|fields| - 1])
  }

  function FieldsOf(h: Hello): seq<seq<byte>>
  {
    [h.pubkey, h.nonce, h.machineId, h.displayName]
  }

  /** Fields all shorter than 2^32 bytes can be told apart again. */
  lemma {:induction false} FieldsInjective(a: seq<seq<byte>>, b: seq<seq<byte>>)
    requires |a| == |b| && Fields(a) == Fields(b)
    requires forall i :: 0 <= i < |a| ==> Short(a[i]) && Short(b[i])
    ensures a == b
  {
    FrontInjective(a, [], b, []);
  }

  lemma LastFieldApart(fields: seq<seq<byte>>, x: seq<byte>)
    requires fields != []
    ensures var n := |fields| - 1; Fields(fields) + x == Fields(fields[..n]) + (Prefixed(fields[n]) + x)
  {
  }

  /** The same with anything after the fields. */
  lemma {:induction false} FrontInjective(a: seq<seq<byte>>, x: seq<byte>, b: seq<seq<byte>>, y: seq<byte>)
    requires |a| == |b| && Fields(a) + x == Fields(b) + y
    requires forall i :: 0 <= i < |a| ==> Short(a[i]) && Short(b[i])
    ensures a == b && x == y
  {
    if a != [] {
      var n := |a| - 1;
      LastFieldApart(a, x);
      LastFieldApart(b, y);
      FrontInjective(a[..n], Prefixed(a[n]) + x, b[..n], Prefixed(b[n]) + y);
      Pow256Values();
      PrefixedInjective(a[n], x, b[n], y);
      assert a == a[..n] + [a[n]] && b == b[..n] + [b[n]];
    } else {
      assert Fields(a) + x == x && Fields(b) + y == y;
    }
  }

  /** The buffer with one length-prefixed field appended. */
  method PushField(out: seq<byte>, field: seq<byte>) returns (r: seq<byte>)
    ensures r == out + Prefixed(field)
  {
    r := out + BigEndian(|field|, 4);
    r := r + field;
  }

  // ---------- the pairing transcript ----------

  function Ordered(a: Hello, b: Hello): (Hello, Hello)
  {
    if AtMost(a.pubkey, b.pubkey) then (a, b) else (b, a)
  }

  function Canonical(a: Hello, b: Hello): seq<byte>
  {
    var (lo, hi) := Ordered(a, b);
    Fields(FieldsOf(lo) + FieldsOf(hi))
  }

  /** The eight fields of a transcript, each behind its length: key, nonce, machine id and name of one
      end and then of the other. */
  predicate SpelledOut(out: seq<byte>, lo: Hello, hi: Hello)
  {
    out == Prefixed(lo.pubkey) + Prefixed(lo.nonce) + Prefixed(lo.machineId) + Prefixed(lo.displayName)
           + Prefixed(hi.pubkey) + Prefixed(hi.nonce) + Prefixed(hi.machineId) + Prefixed(hi.displayName)
  }

  /** The end with the smaller key comes first. */
  method CanonicalTranscript(a: Hello, b: Hello) returns (out: seq<byte>)
    ensures out == Canonical(a, b)
    ensures AtMost(a.pubkey, b.pubkey) ==> SpelledOut(out, a, b)
    ensures !AtMost(a.pubkey, b.pubkey) ==> SpelledOut(out, b, a)
  {
    var (lo, hi) := Ordered(a, b);
    var sides := [lo, hi];
    out := [];
    for i := 0 to 2
      invariant out == Fields(if i == 0 then [] else if i == 1 then FieldsOf(lo) else FieldsOf(lo) + FieldsOf(hi))
    {
      ghost var done := if i == 0 then [] else FieldsOf(lo);
      var side := sides[i];
      FieldsAppendFour(done, side);
      out := PushField(out, side.pubkey);
      out := PushField(out, side.nonce);
      out := PushField(out, side.machineId);
      out := PushField(out, side.displayName);
      assert done + FieldsOf(side) == if i == 0 then FieldsOf(lo) else FieldsOf(lo) + FieldsOf(hi);
    }
    EightFields(lo, hi);
  }

  lemma FieldsAppend(fields: seq<seq<byte>>, last: seq<byte>)
    ensures Fields(fields + [last]) == Fields(fields) + Prefixed(last)
  {
    assert (fields + [last])[..|fields|] == fields;
  }

  lemma FieldsAppendFour(fields: seq<seq<byte>>, h: Hello)
    ensures Fields(fields + FieldsOf(h)) ==
            Fields(fields) + Prefixed(h.pubkey) + Prefixed(h.nonce) + Prefixed(h.machineId) + Prefixed(h.displayName)
  {
    var one := fields + [h.pubkey];
    var two := one + [h.nonce];
    var three := two + [h.machineId];
    FieldsAppend(fields, h.pubkey);
    FieldsAppend(one, h.nonce);
    FieldsAppend(two, h.machineId);
    FieldsAppend(three, h.displayName);
    assert fields + FieldsOf(h) == three + [h.displayName];
  }

  lemma EightFields(lo: Hello, hi: Hello)
    ensures SpelledOut(Fields(FieldsOf(lo) + FieldsOf(hi)), lo, hi)
  {
    FieldsAppendFour([], lo);
    assert [] + FieldsOf(lo) == FieldsOf(lo);
    FieldsAppendFour(FieldsOf(lo), hi);
  }

  lemma OrderedInjective(a: Hello, b: Hello, c: Hello, d: Hello)
    requires Encodable(a) && Encodable(b) && Encodable(c) && Encodable(d)
    requires Canonical(a, b) == Canonical(c, d)
    ensures Ordered(a, b) == Ordered(c, d)
  {
    var (lo, hi) := Ordered(a, b);
    var (lo', hi') := Ordered(c, d);
    var f, g := FieldsOf(lo) + FieldsOf(hi), FieldsOf(lo') + FieldsOf(hi');
    FieldsInjective(f, g);
    assert f[0] == g[0] && f[1] == g[1] && f[2] == g[2] && f[3] == g[3];
    assert f[4] == g[4] && f[5] == g[5] && f[6] == g[6] && f[7] == g[7];
  }

  /** Equal transcripts come from the same two Hellos, in one order or the other. */
  lemma TranscriptInjective(a: Hello, b: Hello, c: Hello, d: Hello)
    requires Encodable(a) && Encodable(b) && Encodable(c) && Encodable(d)
    requires Canonical(a, b) == Canonical(c, d)
    ensures (a == c && b == d) || (a == d && b == c)
  {
    OrderedInjective(a, b, c, d);
  }

  /** Both ends derive the same transcript exactly when their keys differ, or their Hellos do not. */
  lemma TranscriptSymmetricIff(a: Hello, b: Hello)
    requires Encodable(a) && Encodable(b)
    ensures Canonical(a, b) == Canonical(b, a) <==> a.pubkey != b.pubkey || a == b
  {
    AtMostTotal(a.pubkey, b.pubkey);
    if Canonical(a, b) == Canonical(b, a) {
      OrderedInjective(a, b, b, a);
    }
  }

  // ---------- the signed sync state ----------

  const SIGN_DOMAIN: seq<byte> := [115, 121, 110, 98, 97, 100, 45, 115, 121, 110, 99, 45, 118, 49]

  lemma SignDomainReads()
    ensures AsText(SIGN_DOMAIN) == "synbad-sync-v1"
  {
    assert |SIGN_DOMAIN| == 14;
  }

  function StateFields(from: seq<byte>, nonce: seq<byte>, state: seq<byte>): seq<seq<byte>>
  {
    [SIGN_DOMAIN, from, nonce, state]
  }

  method CanonicalStateBytes(from: seq<byte>, nonce: seq<byte>, state: seq<byte>) returns (out: seq<byte>)
    ensures out == Fields(StateFields(from, nonce, state))
    ensures out == Prefixed(SIGN_DOMAIN) + Prefixed(from) + Prefixed(nonce) + Prefixed(state)
  {
    FieldsAppendFour([], Hello(SIGN_DOMAIN, from, nonce, state));
    assert [] + FieldsOf(Hello(SIGN_DOMAIN, from, nonce, state)) == StateFields(from, nonce, state);
    out := PushField([], SIGN_DOMAIN);
    assert out == Prefixed(SIGN_DOMAIN) && Fields([]) + Prefixed(SIGN_DOMAIN) == Prefixed(SIGN_DOMAIN);
    out := PushField(out, from);
    out := PushField(out, nonce);
    out := PushField(out, state);
  }

  /** The signed bytes determine who sent them, for which session, and the state. */
  lemma StateBytesInjective(from: seq<byte>, nonce: seq<byte>, state: seq<byte>, from': seq<byte>, nonce': seq<byte>,
      state': seq<byte>)
    requires Short(from) && Short(nonce) && Short(state) && Short(from') && Short(nonce') && Short(state')
    requires Fields(StateFields(from, nonce, state)) == Fields(StateFields(from', nonce', state'))
    ensures from == from' && nonce == nonce' && state == state'
  {
    var f, g := StateFields(from, nonce, state), StateFields(from', nonce', state');
    FieldsInjective(f, g);
    assert f[1] == g[1] && f[2] == g[2] && f[3] == g[3];
  }

  /** One machine key signs both kinds of bytes, and neither can pass for the other unless a public
      key spells the domain name, which no 64-digit key does. */
  lemma DomainsDisjoint(a: Hello, b: Hello, from: seq<byte>, nonce: seq<byte>, state: seq<byte>)
    requires Encodable(a) && Encodable(b) && a.pubkey != SIGN_DOMAIN && b.pubkey != SIGN_DOMAIN
    ensures Canonical(a, b) != Fields(StateFields(from, nonce, state))
  {
    var (lo, hi) := Ordered(a, b);
    if Canonical(a, b) == Fields(StateFields(from, nonce, state)) {
      FirstField(FieldsOf(lo) + FieldsOf(hi));
      FirstField(StateFields(from, nonce, state));
      Pow256Values();
      PrefixedInjective(lo.pubkey, Fields((FieldsOf(lo) + FieldsOf(hi))[1..]), SIGN_DOMAIN,
          Fields(StateFields(from, nonce, state)[1..]));
      assert false;
    }
  }

  lemma {:induction false} FirstField(fields: seq<seq<byte>>)
    requires fields != []
    ensures Fields(fields) == Prefixed(fields[0]) + Fields(fields[1..])
  {
    var n := |fields| - 1;
    if n == 0 {
      assert fields[..0] == [] && fields[1..] == [];
      assert Fields([]) + Prefixed(fields[0]) == Prefixed(fields[0]) + Fields([]);
    } else {
      FirstField(fields[..n]);
      var tail := fields[1..];
      assert tail[..n - 1] == fields[..n][1..] && tail[n - 1] == fields[n];
      var first, middle, last := Prefixed(fields[0]), Fields(tail[..n - 1]), Prefixed(fields[n]);
      assert Fields(fields) == (first + middle) + last && Fields(tail) == middle + last;
      assert (first + middle) + last == first + (middle + last);
    }
  }
}
