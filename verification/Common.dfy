/** Small vocabulary shared by every component of the model. */
module Common {

  /** A value that may be absent: Python's `None`, SQL's `NULL`. */
  datatype Option<+T> = None | Some(value: T)

  /** The characters `str.strip` removes. */
  predicate IsBlank(c: char) {
    || 9 <= c as int <= 13 || 28 <= c as int <= 32 || 0x2000 <= c as int <= 0x200a
    || c as int in {0x85, 0xa0, 0x1680, 0x2028, 0x2029, 0x202f, 0x205f, 0x3000}
  }

  /** How the worker executes. */
  datatype Mode = PAPER | TESTNET | LIVE

  /** SQL's COALESCE(preferred, fallback). */
  function Coalesce<T>(preferred: Option<T>, fallback: Option<T>): Option<T> {
    if preferred.Some? then preferred else fallback
  }

  /** Python's `preferred or fallback` on an optional string: the empty string is falsy. */
  function OrElse(preferred: Option<string>, fallback: Option<string>): Option<string> {
    if preferred.Some? && preferred.value != "" then preferred else fallback
  }
}

/**
 * Text comparison as both Python and SQLite's BINARY collation perform it:
 * code point by code point, a proper prefix coming first.
 */
module TextOrder {

  predicate Less(a: string, b: string) {
    b != "" && (a == "" || a[0] < b[0] || (a[0] == b[0] && Less(a[1..], b[1..])))
  }

  predicate AtMost(a: string, b: string) {
    !Less(b, a)
  }

  lemma {:induction false} Irreflexive(a: string)
    ensures !Less(a, a)
  {
    if a != "" { Irreflexive(a[1..]); }
  }

  lemma {:induction false} Trichotomy(a: string, b: string)
    ensures Less(a, b) || a == b || Less(b, a)
  {
    if a != "" && b != "" {
      Trichotomy(a[1..], b[1..]);
      assert a == [a[0]] + a[1..] && b == [b[0]] + b[1..];
    }
  }

  lemma {:induction false} Transitive(a: string, b: string, c: string)
    requires Less(a, b) && Less(b, c)
    ensures Less(a, c)
  {
    if a != "" && a[0] == b[0] == c[0] { Transitive(a[1..], b[1..], c[1..]); }
  }

  /** Text order: equal up to some place, and there the first text ends or has the smaller character. */
  lemma {:induction false} LessIff(a: string, b: string)
    ensures Less(a, b) <==>
            exists k :: 0 <= k <= |a| && k < |b| && a[..k] == b[..k] && (k == |a| || a[k] < b[k])
  {
    if a == "" {
      if b != "" { assert a[..0] == b[..0]; }
    } else if b != "" && a[0] == b[0] {
      LessIff(a[1..], b[1..]);
      if Less(a[1..], b[1..]) {
        var k :| 0 <= k <= |a[1..]| && k < |b[1..]| && a[1..][..k] == b[1..][..k]
                 && (k == |a[1..]| || a[1..][k] < b[1..][k]);
        assert a[..k + 1] == [a[0]] + a[1..][..k] && b[..k + 1] == [b[0]] + b[1..][..k];
      }
      if k :| 0 <= k <= |a| && k < |b| && a[..k] == b[..k] && (k == |a| || a[k] < b[k]) {
        assert k > 0;
        assert a[1..][..k - 1] == a[..k][1..] && b[1..][..k - 1] == b[..k][1..];
        assert k - 1 == |a[1..]| || a[1..][k - 1] < b[1..][k - 1];
      }
    } else if b != "" {
      if a[0] < b[0] { assert a[..0] == b[..0]; }
    }
  }

  /** Texts that share their first |p| characters in length compare chunk by chunk. */
  lemma {:induction false} ChunkOrder(p: string, q: string, a: string, b: string)
    requires |p| == |q|
    ensures Less(p + a, q + b) <==> Less(p, q) || (p == q && Less(a, b))
  {
    if p == "" {
      assert p + a == a && q + b == b;
    } else {
      ChunkOrder(p[1..], q[1..], a, b);
      assert (p + a)[1..] == p[1..] + a && (q + b)[1..] == q[1..] + b;
      assert p == [p[0]] + p[1..] && q == [q[0]] + q[1..];
      if p[0] == q[0] && p[1..] == q[1..] {
        assert p == q;
        Irreflexive(p);
        Irreflexive(p[1..]);
      }
    }
  }

  /** Order of rows in `ORDER BY created_at, job_id` and in `min(key=(created_at, job_id))`. */
  predicate KeyLess(c1: string, i1: string, c2: string, i2: string) {
    Less(c1, c2) || (c1 == c2 && Less(i1, i2))
  }

  lemma KeyTotal(c1: string, i1: string, c2: string, i2: string)
    ensures KeyLess(c1, i1, c2, i2) || (c1 == c2 && i1 == i2) || KeyLess(c2, i2, c1, i1)
    ensures !(KeyLess(c1, i1, c2, i2) && KeyLess(c2, i2, c1, i1))
    ensures !KeyLess(c1, i1, c1, i1)
  {
    Trichotomy(c1, c2);
    Trichotomy(i1, i2);
    Irreflexive(c1);
    Irreflexive(i1);
    if Less(c1, c2) && Less(c2, c1) { Transitive(c1, c2, c1); }
    if Less(i1, i2) && Less(i2, i1) { Transitive(i1, i2, i1); }
  }

  lemma KeyTransitive(c1: string, i1: string, c2: string, i2: string, c3: string, i3: string)
    requires KeyLess(c1, i1, c2, i2) && KeyLess(c2, i2, c3, i3)
    ensures KeyLess(c1, i1, c3, i3)
  {
    if Less(c1, c2) && Less(c2, c3) { Transitive(c1, c2, c3); }
    if Less(i1, i2) && Less(i2, i3) { Transitive(i1, i2, i3); }
  }
}
