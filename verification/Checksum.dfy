/** The order-independent table checksum: an exclusive-or over live rows of
    FNV-1a(key) ^ ts ^ seq, all in 64-bit unsigned arithmetic. */
module Checksum {
  import opened Text
  import opened Hlc
  import opened Model

  const M: int := 0x1_0000_0000_0000_0000

  /** 64-bit FNV parameters (section 5 of IETF draft-eastlake-fnv). */
  const FNV_OFFSET: U64 := 14695981039346656037
  const FNV_PRIME: int := 1099511628211

  /** The inverse of the FNV prime modulo 2^64. */
  const FNV_INVERSE: int := 14886173955864302971

  /** A 64-bit unsigned value. */
  type U64 = x: int | 0 <= x < M

  /** Conversion of a signed integer to 64 unsigned bits. */
  function U64Of(x: int): U64 {
    x % M
  }

  // ------------------------------------------------------------ exclusive or

  function Xor(a: nat, b: nat): nat {
    if a == 0 && b == 0 then 0
    else (if a % 2 == b % 2 then 0 else 1) + 2 * Xor(a / 2, b / 2)
  }

  lemma {:induction false} XorZero(a: nat)
    ensures Xor(a, 0) == a
  {
    if a != 0 {
      XorZero(a / 2);
    }
  }

  lemma {:induction false} XorCommutes(a: nat, b: nat)
    ensures Xor(a, b) == Xor(b, a)
  {
    if a != 0 || b != 0 {
      XorCommutes(a / 2, b / 2);
    }
  }

  /** The low bit and the rest of an exclusive or. */
  lemma {:induction false} XorBits(a: nat, b: nat)
    ensures Xor(a, b) % 2 == if a % 2 == b % 2 then 0 else 1
    ensures Xor(a, b) / 2 == Xor(a / 2, b / 2)
  {
    if a != 0 || b != 0 {
      var rest := Xor(a / 2, b / 2);
      var bit := if a % 2 == b % 2 then 0 else 1;
      assert Xor(a, b) == bit + 2 * rest;
    }
  }

  lemma BitsDetermine(x: nat, y: nat)
    requires x % 2 == y % 2 && x / 2 == y / 2
    ensures x == y
  {
  }

  lemma {:induction false} XorAssociates(a: nat, b: nat, c: nat)
    ensures Xor(Xor(a, b), c) == Xor(a, Xor(b, c))
    decreases a + b + c
  {
    if a != 0 || b != 0 || c != 0 {
      XorAssociates(a / 2, b / 2, c / 2);
      var x, y := Xor(a, b), Xor(b, c);
      XorBits(a, b);
      XorBits(b, c);
      XorBits(x, c);
      XorBits(a, y);
      BitsDetermine(Xor(x, c), Xor(a, y));
    }
  }

  lemma {:induction false} XorSelf(a: nat)
    ensures Xor(a, a) == 0
  {
    if a != 0 {
      XorSelf(a / 2);
    }
  }

  /** An exclusive or undoes itself. */
  lemma XorUndo(a: nat, b: nat)
    ensures Xor(b, Xor(b, a)) == a
    ensures Xor(Xor(a, b), b) == a
  {
    XorAssociates(b, b, a);
    XorAssociates(a, b, b);
    XorSelf(b);
    XorZero(a);
    XorCommutes(0, a);
  }

  lemma XorInjective(a: nat, b: nat, c: nat)
    requires Xor(a, c) == Xor(b, c)
    ensures a == b
  {
    XorUndo(a, c);
    XorUndo(b, c);
  }

  /** Two terms of an exclusive-or chain may trade places. */
  lemma XorSwap(a: nat, b: nat, c: nat)
    ensures Xor(a, Xor(b, c)) == Xor(b, Xor(a, c))
  {
    XorAssociates(a, b, c);
    XorAssociates(b, a, c);
    XorCommutes(a, b);
  }

  function Pow2(k: nat): nat {
    if k == 0 then 1 else 2 * Pow2(k - 1)
  }

  lemma {:induction false} XorBound(a: nat, b: nat, k: nat)
    requires a < Pow2(k) && b < Pow2(k)
    ensures Xor(a, b) < Pow2(k)
  {
    if a != 0 || b != 0 {
      XorBound(a / 2, b / 2, k - 1);
    }
  }

  lemma {:induction false} Pow2Adds(i: nat, j: nat)
    ensures Pow2(i + j) == Pow2(i) * Pow2(j)
  {
    if i != 0 {
      Pow2Adds(i - 1, j);
    }
  }

  lemma Pow2Of64()
    ensures Pow2(64) == M
  {
    assert Pow2(4) == 16;
    Pow2Adds(4, 4);
    Pow2Adds(8, 8);
    Pow2Adds(16, 16);
    Pow2Adds(32, 32);
  }

  lemma XorFits(a: U64, b: U64)
    ensures Xor(a, b) < M
  {
    Pow2Of64();
    XorBound(a, b, 64);
  }

  // ------------------------------------------------------------ the key hash

  /** One round of FNV-1a: exclusive-or the byte in, multiply by the prime. */
  function FnvStep(h: U64, b: Byte): U64 {
    (Xor(h, b) * FNV_PRIME) % M
  }

  /** A state carried over the bytes of s by one round after another. */
  function Iterate<S>(step: (S, Byte) -> S, h: S, s: Str): S {
    if s == [] then h else Iterate(step, step(h, s[0]), s[1..])
  }

  function Fnv(s: Str): U64 {
    Iterate<U64>(FnvStep, FNV_OFFSET, s)
  }

  lemma {:induction false} IterateAppends<S>(step: (S, Byte) -> S, h: S, s: Str, t: Str)
    ensures Iterate(step, h, s + t) == Iterate(step, Iterate(step, h, s), t)
  {
    if s == [] {
      assert s + t == t;
    } else {
      IterateAppends(step, step(h, s[0]), s[1..], t);
      assert (s + t)[1..] == s[1..] + t;
    }
  }

  /** If every round is injective in the state, so is the whole iteration. */
  lemma {:induction false} IterateInjective<S(!new)>(step: (S, Byte) -> S, g: S, h: S, s: Str)
    requires forall x, y, b :: step(x, b) == step(y, b) ==> x == y
    requires Iterate(step, g, s) == Iterate(step, h, s)
    ensures g == h
  {
    if s != [] {
      IterateInjective(step, step(g, s[0]), step(h, s[0]), s[1..]);
    }
  }

  /** If M divides d and |d| < M then d is zero. */
  lemma OnlyZeroMultiple(d: int, q: int)
    requires d == M * q
    requires -M < d < M
    ensures d == 0
  {
  }

  /** Multiplying by the odd FNV prime loses nothing modulo 2^64. */
  lemma PrimeIsInvertible(x: U64, y: U64)
    requires (x * FNV_PRIME) % M == (y * FNV_PRIME) % M
    ensures x == y
  {
    var d := x - y;
    var q := (x * FNV_PRIME) / M - (y * FNV_PRIME) / M;
    assert d * FNV_PRIME == M * q;
    var t := 887285111055;
    assert FNV_PRIME * FNV_INVERSE == 1 + M * t;
    assert d * (1 + M * t) == M * (q * FNV_INVERSE) by {
      assert d * (FNV_PRIME * FNV_INVERSE) == (d * FNV_PRIME) * FNV_INVERSE;
    }
    assert d == M * (q * FNV_INVERSE - d * t);
    OnlyZeroMultiple(d, q * FNV_INVERSE - d * t);
  }

  lemma FnvStepInjective(g: U64, h: U64, b: Byte)
    requires FnvStep(g, b) == FnvStep(h, b)
    ensures g == h
  {
    XorFits(g, b);
    XorFits(h, b);
    PrimeIsInvertible(Xor(g, b), Xor(h, b));
    XorInjective(g, h, b);
  }

  lemma FnvStepSeesByte(h: U64, x: Byte, y: Byte)
    requires FnvStep(h, x) == FnvStep(h, y)
    ensures x == y
  {
    XorFits(h, x);
    XorFits(h, y);
    PrimeIsInvertible(Xor(h, x), Xor(h, y));
    XorCommutes(h, x);
    XorCommutes(h, y);
    XorInjective(x, y, h);
  }

  /** Keys of one length that differ in exactly one byte never collide. */
  lemma OneByteNeverCollides(pre: Str, x: Byte, y: Byte, post: Str)
    requires x != y
    ensures Fnv(pre + [x] + post) != Fnv(pre + [y] + post)
  {
    if Fnv(pre + [x] + post) == Fnv(pre + [y] + post) {
      var h := Fnv(pre);
      OneByteStates(pre, x, post);
      OneByteStates(pre, y, post);
      forall a: U64, c: U64, b: Byte | FnvStep(a, b) == FnvStep(c, b) ensures a == c {
        FnvStepInjective(a, c, b);
      }
      IterateInjective<U64>(FnvStep, FnvStep(h, x), FnvStep(h, y), post);
      FnvStepSeesByte(h, x, y);
    }
  }

  lemma OneByteStates(pre: Str, x: Byte, post: Str)
    ensures Fnv(pre + [x] + post) == Iterate<U64>(FnvStep, FnvStep(Fnv(pre), x), post)
  {
    IterateAppends<U64>(FnvStep, FNV_OFFSET, pre + [x], post);
    IterateAppends<U64>(FnvStep, FNV_OFFSET, pre, [x]);
    assert Iterate<U64>(FnvStep, Fnv(pre), [x]) == Iterate<U64>(FnvStep, FnvStep(Fnv(pre), x), [x][1..]);
  }

  /** The inner loop of the row and event checksums (store.go:328-332 and 446-451). */
  method FnvLoop(key: Str) returns (h: U64)
    ensures h == Fnv(key)
  {
    h := FNV_OFFSET;
    for i := 0 to |key|
      invariant Iterate<U64>(FnvStep, h, key[i..]) == Fnv(key)
    {
      XorFits(h, key[i]);
      assert key[i..][1..] == key[i + 1..];
      var x := Xor(h, key[i]);
      h := (x * FNV_PRIME) % M;
    }
  }

  /** One more bit of an exclusive or, from the low end. */
  lemma XorUp(a: nat, b: nat, rest: nat)
    requires a != 0 && Xor(a / 2, b / 2) == rest
    ensures Xor(a, b) == 2 * rest + if a % 2 == b % 2 then 0 else 1
  {
  }

  lemma OffsetAndA(h: nat, b: nat)
    requires h == FNV_OFFSET && b == 97
    ensures Xor(h, b) == 0xcbf2_9ce4_8422_2344
  {
    XorZero(0x197_e539_c908_4446);
    XorUp(0x32f_ca73_9210_888c, 1, 0x197_e539_c908_4446);
    XorUp(0x65f_94e7_2421_1119, 3, 0x32f_ca73_9210_888d);
    XorUp(0xcbf_29ce_4842_2232, 6, 0x65f_94e7_2421_111a);
    XorUp(0x197e_539c_9084_4464, 0xc, 0xcbf_29ce_4842_2234);
    XorUp(0x32fc_a739_2108_88c9, 0x18, 0x197e_539c_9084_4468);
    XorUp(0x65f9_4e72_4211_1192, 0x30, 0x32fc_a739_2108_88d1);
    XorUp(0xcbf2_9ce4_8422_2325, 0x61, 0x65f9_4e72_4211_11a2);
  }

  lemma OneByteHash(b: Byte)
    ensures Fnv([b]) == FnvStep(FNV_OFFSET, b)
  {
    OneByteStates([], b, []);
    assert [] + [b] + [] == [b];
  }

  lemma StepFrom(h: U64, b: Byte, x: nat)
    requires Xor(h, b) == x
    ensures FnvStep(h, b) == (x * FNV_PRIME) % M
  {
  }

  /** Published FNV-1a values: of the empty string, */
  lemma KnownEmptyHash()
    ensures Fnv([]) == 0xcbf2_9ce4_8422_2325
  {
  }

  lemma FirstProduct(x: nat)
    requires x == 0xcbf2_9ce4_8422_2344
    ensures (x * FNV_PRIME) % M == 0xaf63_dc4c_8601_ec8c
  {
    assert x * FNV_PRIME == 875948729822 * M + 0xaf63_dc4c_8601_ec8c;
  }

  lemma FirstRound(h: U64, b: Byte, x: nat)
    requires h == FNV_OFFSET && b == 97 && x == 0xcbf2_9ce4_8422_2344
    ensures FnvStep(h, b) == 0xaf63_dc4c_8601_ec8c
  {
    OffsetAndA(h, b);
    StepFrom(h, b, x);
    FirstProduct(x);
  }

  /** and of "a". */
  lemma KnownHash(b: Byte)
    requires b == 97
    ensures Fnv([b]) == 0xaf63_dc4c_8601_ec8c
  {
    OneByteHash(b);
    FirstRound(FNV_OFFSET, b, 0xcbf2_9ce4_8422_2344);
  }

  // ------------------------------------------------------------ the table fold

  /** What one hashed record contributes: its key's hash and its stamp. */
  function Term(key: Str, h: HLC): U64 {
    XorFits(Fnv(key), U64Of(h.ts));
    XorFits(Xor(Fnv(key), U64Of(h.ts)), U64Of(h.ctr));
    Xor(Xor(Fnv(key), U64Of(h.ts)), U64Of(h.ctr))
  }

  /** A hashed record: its key text and its stamp. */
  datatype Entry = Entry(key: Str, hlc: HLC)

  ghost function Pick(s: set<Entry>): Entry
    requires s != {}
  {
    var e :| e in s; e
  }

  ghost function Fold(s: set<Entry>): U64 {
    if s == {} then 0
    else
      var e := Pick(s);
      XorFits(Term(e.key, e.hlc), Fold(s - {e}));
      Xor(Term(e.key, e.hlc), Fold(s - {e}))
  }

  /** Any entry may be taken out first: the fold does not depend on row order. */
  lemma {:induction false} FoldAnyFirst(s: set<Entry>, e: Entry)
    requires e in s
    ensures Fold(s) == Xor(Term(e.key, e.hlc), Fold(s - {e}))
    decreases |s|
  {
    var p := Pick(s);
    if p != e {
      FoldAnyFirst(s - {p}, e);
      FoldAnyFirst(s - {e}, p);
      assert s - {p} - {e} == s - {e} - {p};
      XorSwap(Term(p.key, p.hlc), Term(e.key, e.hlc), Fold(s - {p} - {e}));
    }
  }

  /** Replacing one entry is XORing out its old term and XORing in its new one. */
  lemma FoldReplace(s: set<Entry>, e: Entry, f: Entry)
    requires e in s && f !in s
    ensures Fold(s - {e} + {f}) == Xor(Term(f.key, f.hlc), Xor(Term(e.key, e.hlc), Fold(s)))
  {
    var t := s - {e} + {f};
    FoldAnyFirst(s, e);
    FoldAnyFirst(t, f);
    assert t - {f} == s - {e};
    XorUndo(Fold(s - {e}), Term(e.key, e.hlc));
  }

  /** int64 values with equal 64-bit images are equal. */
  predicate Int64(x: int) {
    -0x8000_0000_0000_0000 <= x < 0x8000_0000_0000_0000
  }

  lemma U64OfInjective(x: int, y: int)
    requires Int64(x) && Int64(y) && U64Of(x) == U64Of(y)
    ensures x == y
  {
  }

  /** Two records of one key that differ only in the timestamp, or only in the
      counter, contribute different terms. */
  lemma TermSeesStamp(key: Str, g: HLC, h: HLC)
    requires Int64(g.ts) && Int64(h.ts) && Int64(g.ctr) && Int64(h.ctr)
    requires g.ts == h.ts || g.ctr == h.ctr
    requires Term(key, g) == Term(key, h)
    ensures g == h
  {
    var k := Fnv(key);
    if g.ctr == h.ctr {
      XorInjective(Xor(k, U64Of(g.ts)), Xor(k, U64Of(h.ts)), U64Of(g.ctr));
      XorCommutes(k, U64Of(g.ts));
      XorCommutes(k, U64Of(h.ts));
      XorInjective(U64Of(g.ts), U64Of(h.ts), k);
      U64OfInjective(g.ts, h.ts);
    } else {
      var a := Xor(k, U64Of(g.ts));
      XorCommutes(a, U64Of(g.ctr));
      XorCommutes(a, U64Of(h.ctr));
      XorInjective(U64Of(g.ctr), U64Of(h.ctr), a);
      U64OfInjective(g.ctr, h.ctr);
    }
  }

  /** Changing only the timestamp, or only the counter, of one record always
      changes the fold. */
  lemma FoldSeesStamp(s: set<Entry>, key: Str, g: HLC, h: HLC)
    requires Int64(g.ts) && Int64(h.ts) && Int64(g.ctr) && Int64(h.ctr)
    requires g != h && (g.ts == h.ts || g.ctr == h.ctr)
    requires Entry(key, g) in s && Entry(key, h) !in s
    ensures Fold(s - {Entry(key, g)} + {Entry(key, h)}) != Fold(s)
  {
    var e, f := Entry(key, g), Entry(key, h);
    var t := s - {e} + {f};
    FoldAnyFirst(s, e);
    FoldAnyFirst(t, f);
    assert t - {f} == s - {e};
    if Fold(t) == Fold(s) {
      XorInjective(Term(key, g), Term(key, h), Fold(s - {e}));
      TermSeesStamp(key, g, h);
    }
  }

  // ------------------------------------------------------------ rows and events

  /** The records of a kind that the checksum reads: live rows only. */
  function LiveEntries(rows: Rows, kind: Kind): set<Entry> {
    set k | k in rows && k.kind == kind && !rows[k].tombstone :: Entry(k.key, rows[k].hlc)
  }

  ghost function RowsSum(rows: Rows, kind: Kind): U64 {
    Fold(LiveEntries(rows, kind))
  }

  /** Decimal digits, as %d prints an integer. */
  function Decimal(n: int): Str
    decreases if n < 0 then 1 else 0, if n < 0 then -n else n
  {
    if n < 0 then [45] + Decimal(-n)
    else if n < 10 then [48 + n]
    else Decimal(n / 10) + [48 + n % 10]
  }

  /** The text an event is hashed under. */
  function EventText(k: EventKey): Str {
    k.runner + [SLASH] + Decimal(k.num)
  }

  lemma {:induction false} DecimalDigits(n: int, i: nat)
    requires i < |Decimal(n)|
    ensures Decimal(n)[i] != SLASH
    ensures n >= 0 ==> 48 <= Decimal(n)[i] <= 57
    decreases if n < 0 then 1 else 0, if n < 0 then -n else n
  {
    if n < 0 {
      if i > 0 {
        DecimalDigits(-n, i - 1);
      }
    } else if n >= 10 && i < |Decimal(n / 10)| {
      DecimalDigits(n / 10, i);
    }
  }

  lemma DecimalInjective(m: int, n: int)
    requires Decimal(m) == Decimal(n)
    ensures m == n
  {
    if m >= 0 && n >= 0 {
      NatDecimalInjective(m, n);
    } else if m >= 0 {
      DecimalDigits(m, 0);
    } else if n >= 0 {
      DecimalDigits(n, 0);
    } else {
      assert Decimal(m)[1..] == Decimal(-m) && Decimal(n)[1..] == Decimal(-n);
      NatDecimalInjective(-m, -n);
    }
  }

  /** The last digit of a number and the digits before it. */
  lemma DecimalParts(n: nat)
    ensures var d := Decimal(n);
            && |d| >= 1 && d[|d| - 1] == 48 + n % 10
            && (n >= 10 ==> |d| >= 2 && d[..|d| - 1] == Decimal(n / 10))
            && (n < 10 ==> |d| == 1)
  {
    if n >= 10 {
      assert |Decimal(n / 10)| >= 1;
    }
  }

  lemma SameParts(m: nat, n: nat)
    requires m % 10 == n % 10 && m / 10 == n / 10
    ensures m == n
  {
  }

  lemma {:induction false} NatDecimalInjective(m: nat, n: nat)
    requires Decimal(m) == Decimal(n)
    ensures m == n
  {
    DecimalParts(m);
    DecimalParts(n);
    if m >= 10 {
      NatDecimalInjective(m / 10, n / 10);
    }
    SameParts(m, n);
  }

  /** Distinct events are hashed under distinct texts, whatever the runner ids
      contain: the last slash always precedes the number. */
  lemma EventTextInjective(a: EventKey, b: EventKey)
    requires EventText(a) == EventText(b)
    ensures a == b
  {
    var s, da, db := EventText(a), Decimal(a.num), Decimal(b.num);
    if |a.runner| < |b.runner| {
      assert s[|b.runner|] == SLASH;
      assert s[|b.runner|] == da[|b.runner| - |a.runner| - 1];
      DecimalDigits(a.num, |b.runner| - |a.runner| - 1);
    } else if |b.runner| < |a.runner| {
      assert s[|a.runner|] == SLASH;
      assert s[|a.runner|] == db[|a.runner| - |b.runner| - 1];
      DecimalDigits(b.num, |a.runner| - |b.runner| - 1);
    } else {
      assert a.runner == s[..|a.runner|] == b.runner;
      assert da == s[|a.runner| + 1..] == db;
      DecimalInjective(a.num, b.num);
    }
  }

  function EventEntries(events: Events): set<Entry> {
    set k | k in events :: Entry(EventText(k), events[k].hlc)
  }

  ghost function EventsSum(events: Events): U64 {
    Fold(EventEntries(events))
  }

  /** Every live row of the kind in a has a live counterpart in b with the same stamp. */
  ghost predicate LiveWithin(a: Rows, b: Rows, kind: Kind) {
    forall k :: k in a && k.kind == kind && !a[k].tombstone ==>
      k in b && !b[k].tombstone && b[k].hlc == a[k].hlc
  }

  lemma LiveEntriesWithin(a: Rows, b: Rows, kind: Kind)
    requires LiveWithin(a, b, kind)
    ensures LiveEntries(a, kind) <= LiveEntries(b, kind)
  {
  }

  /** Equal live stamps give equal checksums, whatever else the tables hold. */
  lemma SumReadsLiveStampsOnly(a: Rows, b: Rows, kind: Kind)
    requires LiveWithin(a, b, kind) && LiveWithin(b, a, kind)
    ensures RowsSum(a, kind) == RowsSum(b, kind)
  {
    LiveEntriesWithin(a, b, kind);
    LiveEntriesWithin(b, a, kind);
    assert LiveEntries(a, kind) == LiveEntries(b, kind);
  }

  /** Writing a row over a live row of the same key moves the checksum by the old
      and the new term, and by the old term alone if the new row is a tombstone. */
  lemma SumAfterReplace(rows: Rows, r: Row)
    requires KeyOf(r) in rows && !rows[KeyOf(r)].tombstone && rows[KeyOf(r)].hlc != r.hlc
    ensures RowsSum(rows[KeyOf(r) := r], r.kind)
            == var out := Xor(Term(r.key, rows[KeyOf(r)].hlc), RowsSum(rows, r.kind));
               if r.tombstone then out else Xor(Term(r.key, r.hlc), out)
  {
    var k := KeyOf(r);
    var e, f := Entry(r.key, rows[k].hlc), Entry(r.key, r.hlc);
    var s, t := LiveEntries(rows, r.kind), LiveEntries(rows[k := r], r.kind);
    EntriesAfterReplace(rows, r);
    if r.tombstone {
      FoldAnyFirst(s, e);
      XorUndo(Fold(s - {e}), Term(e.key, e.hlc));
    } else {
      FoldReplace(s, e, f);
    }
  }

  lemma EntriesAfterReplace(rows: Rows, r: Row)
    requires KeyOf(r) in rows && !rows[KeyOf(r)].tombstone && rows[KeyOf(r)].hlc != r.hlc
    ensures var e, f := Entry(r.key, rows[KeyOf(r)].hlc), Entry(r.key, r.hlc);
            var s := LiveEntries(rows, r.kind);
            && e in s && f !in s
            && LiveEntries(rows[KeyOf(r) := r], r.kind) == if r.tombstone then s - {e} else s - {e} + {f}
  {
    var k := KeyOf(r);
    var e, f := Entry(r.key, rows[k].hlc), Entry(r.key, r.hlc);
    var s, t := LiveEntries(rows, r.kind), LiveEntries(rows[k := r], r.kind);
    assert k in rows && k.kind == r.kind && e == Entry(k.key, rows[k].hlc);
    forall x ensures x in t <==> (x in s && x != e) || (!r.tombstone && x == f) {
      if x in t {
        var j :| j in rows[k := r] && j.kind == r.kind && !rows[k := r][j].tombstone && x == Entry(j.key, rows[k := r][j].hlc);
        if j != k {
          assert j.key != k.key;
          assert j in rows && !rows[j].tombstone;
        }
      }
      if x in s && x != e {
        var j :| j in rows && j.kind == r.kind && !rows[j].tombstone && x == Entry(j.key, rows[j].hlc);
        assert j != k && j in rows[k := r] && rows[k := r][j] == rows[j];
      }
      if !r.tombstone && x == f {
        assert k in rows[k := r] && x == Entry(k.key, rows[k := r][k].hlc);
      }
    }
  }

  /** Two tables that differ only in the timestamp, or only in the counter, of
      one live row never share a checksum. */
  lemma SumSeesStamp(rows: Rows, r: Row)
    requires KeyOf(r) in rows && !rows[KeyOf(r)].tombstone && !r.tombstone
    requires var g, h := rows[KeyOf(r)].hlc, r.hlc;
             && Int64(g.ts) && Int64(h.ts) && Int64(g.ctr) && Int64(h.ctr)
             && g != h && (g.ts == h.ts || g.ctr == h.ctr)
    ensures RowsSum(rows[KeyOf(r) := r], r.kind) != RowsSum(rows, r.kind)
  {
    EntriesAfterReplace(rows, r);
    FoldSeesStamp(LiveEntries(rows, r.kind), r.key, rows[KeyOf(r)].hlc, r.hlc);
  }

  /** Equal checksums do not make equal tables: owner and payload are never hashed,
      so any two rows with one key and stamp pass for each other. */
  lemma SumIgnoresOwnerAndPayload(rows: Rows, r: Row)
    requires KeyOf(r) in rows && rows[KeyOf(r)].hlc == r.hlc && rows[KeyOf(r)].tombstone == r.tombstone
    ensures forall kind :: RowsSum(rows[KeyOf(r) := r], kind) == RowsSum(rows, kind)
  {
    forall kind ensures RowsSum(rows[KeyOf(r) := r], kind) == RowsSum(rows, kind) {
      SumReadsLiveStampsOnly(rows[KeyOf(r) := r], rows, kind);
    }
  }

  /** A table with one live row has the row's own term for a checksum, one with none has
      zero, and other kinds and tombstones add nothing. */
  lemma OneRowSum(r: Row)
    ensures RowsSum(map[], r.kind) == 0
    ensures RowsSum(map[KeyOf(r) := r], r.kind)
            == if r.tombstone then 0 else Xor(Fnv(r.key), Xor(U64Of(r.hlc.ts), U64Of(r.hlc.ctr)))
  {
    var rows := map[KeyOf(r) := r];
    if r.tombstone {
      assert LiveEntries(rows, r.kind) == {};
    } else {
      var e := Entry(r.key, r.hlc);
      assert KeyOf(r) in rows && LiveEntries(rows, r.kind) == {e};
      FoldAnyFirst({e}, e);
      assert {e} - {e} == {};
      XorZero(Term(r.key, r.hlc));
      TermIsKeyAndStamp(r.key, r.hlc);
    }
  }

  /** A live row under a new key moves the checksum by its term. */
  lemma SumAfterInsert(rows: Rows, r: Row)
    requires KeyOf(r) !in rows && !r.tombstone
    ensures RowsSum(rows[KeyOf(r) := r], r.kind) == Xor(Term(r.key, r.hlc), RowsSum(rows, r.kind))
  {
    var k, e := KeyOf(r), Entry(r.key, r.hlc);
    var s, t := LiveEntries(rows, r.kind), LiveEntries(rows[k := r], r.kind);
    assert k in rows[k := r] && e in t;
    forall x ensures x in t - {e} <==> x in s {
      if x in s {
        var j :| j in rows && j.kind == r.kind && !rows[j].tombstone && x == Entry(j.key, rows[j].hlc);
        assert j != k && j in rows[k := r] && rows[k := r][j] == rows[j];
      }
    }
    assert t - {e} == s;
    FoldAnyFirst(t, e);
  }

  /** The key counts: one live row added under either of two keys that differ in one byte
      gives different checksums. */
  lemma SumSeesKey(rows: Rows, r: Row, pre: Str, x: Byte, y: Byte, post: Str)
    requires x != y && !r.tombstone && r.key == pre + [x] + post
    requires KeyOf(r) !in rows && RowKey(r.kind, pre + [y] + post) !in rows
    ensures var q := r.(key := pre + [y] + post);
            RowsSum(rows[KeyOf(r) := r], r.kind) != RowsSum(rows[KeyOf(q) := q], r.kind)
  {
    var q := r.(key := pre + [y] + post);
    SumAfterInsert(rows, r);
    SumAfterInsert(rows, q);
    OneByteNeverCollides(pre, x, y, post);
    TermIsKeyAndStamp(r.key, r.hlc);
    TermIsKeyAndStamp(q.key, r.hlc);
    if Xor(Term(r.key, r.hlc), RowsSum(rows, r.kind)) == Xor(Term(q.key, r.hlc), RowsSum(rows, r.kind)) {
      XorInjective(Term(r.key, r.hlc), Term(q.key, r.hlc), RowsSum(rows, r.kind));
      XorInjective(Fnv(r.key), Fnv(q.key), StampBits(r.hlc));
    }
  }

  /** A new event moves the event checksum by the term of its text and stamp. */
  lemma EventSumAfterInsert(events: Events, e: LogEvent)
    requires EventKeyOf(e) !in events
    ensures EventsSum(events[EventKeyOf(e) := e]) == Xor(Term(EventText(EventKeyOf(e)), e.hlc), EventsSum(events))
  {
    var k := EventKeyOf(e);
    var x := Entry(EventText(k), e.hlc);
    var s, t := EventEntries(events), EventEntries(events[k := e]);
    assert k in events[k := e] && x in t;
    forall y ensures y in t - {x} <==> y in s {
      if y in s {
        var j :| j in events && y == Entry(EventText(j), events[j].hlc);
        assert j in events[k := e] && events[k := e][j] == events[j];
        if EventText(j) == EventText(k) {
          EventTextInjective(j, k);
        }
      }
    }
    assert t - {x} == s;
    FoldAnyFirst(t, x);
  }

  /** The text of event 12 of runner "x" is "x/12". */
  lemma EventTextExample()
    ensures EventText(EventKey([120], 12)) == [120, 47, 49, 50]
  {
    assert Decimal(12) == Decimal(1) + [50];
  }

  // ------------------------------------------------------------ when checksums agree

  /** What a stamp adds to the hash of its key. */
  function StampBits(h: HLC): nat {
    Xor(U64Of(h.ts), U64Of(h.ctr))
  }

  lemma TermIsKeyAndStamp(key: Str, h: HLC)
    ensures Term(key, h) == Xor(Fnv(key), StampBits(h))
  {
    XorAssociates(Fnv(key), U64Of(h.ts), U64Of(h.ctr));
  }

  lemma TermsAgreeExactly(key: Str, g: HLC, h: HLC)
    ensures Term(key, g) == Term(key, h) <==> StampBits(g) == StampBits(h)
  {
    TermIsKeyAndStamp(key, g);
    TermIsKeyAndStamp(key, h);
    if Term(key, g) == Term(key, h) {
      XorCommutes(Fnv(key), StampBits(g));
      XorCommutes(Fnv(key), StampBits(h));
      XorInjective(StampBits(g), StampBits(h), Fnv(key));
    }
  }

  /** Overwriting a live row by a live row with another stamp leaves the checksum as it
      was if and only if timestamp and counter have the same exclusive or. */
  lemma SumUnchangedExactly(rows: Rows, r: Row)
    requires KeyOf(r) in rows && !rows[KeyOf(r)].tombstone && !r.tombstone && rows[KeyOf(r)].hlc != r.hlc
    ensures RowsSum(rows[KeyOf(r) := r], r.kind) == RowsSum(rows, r.kind)
            <==> StampBits(rows[KeyOf(r)].hlc) == StampBits(r.hlc)
  {
    var g := rows[KeyOf(r)].hlc;
    var e, f := Entry(r.key, g), Entry(r.key, r.hlc);
    var s := LiveEntries(rows, r.kind);
    EntriesAfterReplace(rows, r);
    FoldAnyFirst(s, e);
    FoldAnyFirst(s - {e} + {f}, f);
    assert s - {e} + {f} - {f} == s - {e};
    TermsAgreeExactly(r.key, g, r.hlc);
    if RowsSum(rows[KeyOf(r) := r], r.kind) == RowsSum(rows, r.kind) {
      XorInjective(Term(r.key, g), Term(r.key, r.hlc), Fold(s - {e}));
    }
  }

  /** In every even millisecond t, the stamps (t, 1) and (t + 1, 0) have the same bits. */
  lemma EvenStampsCollide(t: int)
    requires t % 2 == 0
    ensures StampBits(HLC(t, 1)) == StampBits(HLC(t + 1, 0))
  {
    var e := U64Of(t);
    EvenWraps(t);
    XorBits(e, 1);
    XorZero(e / 2);
    XorZero(e + 1);
    BitsDetermine(Xor(e, 1), e + 1);
  }

  lemma EvenWraps(t: int)
    requires t % 2 == 0
    ensures U64Of(t) % 2 == 0 && U64Of(t + 1) == U64Of(t) + 1
  {
  }

  /** So consecutive ticks of one node share a checksum in every second millisecond: a live
      row stamped (t, 1), t even, may be rewritten by the tick of the next millisecond
      without a trace. */
  lemma ConsecutiveTicksCanCollide(rows: Rows, r: Row, t: int)
    requires KeyOf(r) in rows && !rows[KeyOf(r)].tombstone && !r.tombstone
    requires t % 2 == 0 && rows[KeyOf(r)].hlc == HLC(t, 1) && r.hlc == TickFrom(rows[KeyOf(r)].hlc, t + 1)
    ensures r.hlc != rows[KeyOf(r)].hlc && RowsSum(rows[KeyOf(r) := r], r.kind) == RowsSum(rows, r.kind)
  {
    EvenStampsCollide(t);
    SumUnchangedExactly(rows, r);
  }

  /** The fold of two disjoint sets. */
  lemma {:induction false} FoldUnion(s: set<Entry>, t: set<Entry>)
    requires s !! t
    ensures Fold(s + t) == Xor(Fold(s), Fold(t))
  {
    if s == {} {
      assert s + t == t;
      XorCommutes(0, Fold(t));
      XorZero(Fold(t));
    } else {
      var e := Pick(s);
      FoldUnion(s - {e}, t);
      FoldAnyFirst(s + t, e);
      assert s + t - {e} == s - {e} + t;
      XorAssociates(Term(e.key, e.hlc), Fold(s - {e}), Fold(t));
    }
  }

  lemma FoldsAgreeExactly(s: set<Entry>, t: set<Entry>)
    ensures Fold(s) == Fold(t) <==> Fold(s - t) == Fold(t - s)
  {
    FoldUnion(s - t, s * t);
    FoldUnion(t - s, s * t);
    assert s - t + s * t == s && t - s + s * t == t;
    if Fold(s) == Fold(t) {
      XorInjective(Fold(s - t), Fold(t - s), Fold(s * t));
    }
  }

  /** Any two tables share a kind's checksum if and only if the live keys and stamps found
      in only one of them fold to the same value as those found only in the other. */
  lemma SumsAgreeExactly(a: Rows, b: Rows, kind: Kind)
    ensures RowsSum(a, kind) == RowsSum(b, kind)
            <==> Fold(LiveEntries(a, kind) - LiveEntries(b, kind)) == Fold(LiveEntries(b, kind) - LiveEntries(a, kind))
  {
    FoldsAgreeExactly(LiveEntries(a, kind), LiveEntries(b, kind));
  }
}
