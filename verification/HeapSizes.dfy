/**
 The heap size guesses of src/plugins/node/env/nodeenvplugin.cpp.

 A `size_t` is a natural number below 2^64, or below 2^32 when it is not `wide`.
 */
module HeapSizes {
  import opened PowersOfTwo

  function Width(wide: bool): (n: nat) {
    if wide then 64 else 32
  }

  function Limit(wide: bool): (n: nat)
    ensures n > 0
  {
    Pow2(Width(wide))
  }

  /** The value of an integer as a `size_t`. */
  function Wrap(x: int, wide: bool): (n: nat)
    ensures n < Limit(wide)
  {
    x % Limit(wide)
  }

  function Megabytes(v: int): (n: int) {
    v * 1024 * 1024
  }

  ghost predicate IsLeastPower(p: nat, value: nat) {
    && (exists n :: p == Pow2(n))
    && value <= p
    && forall n :: value <= Pow2(n) ==> p <= Pow2(n)
  }

  predicate IsLeastMultiple(m: nat, value: nat, a: nat)
    requires a > 0
  {
    m % a == 0 && value <= m < value + a
  }

  lemma {:induction false} WrapAround(x: int, k: int, wide: bool)
    requires 0 <= x - k * Limit(wide) < Limit(wide)
    ensures Wrap(x, wide) == x - k * Limit(wide)
  {
    Modulo(x, Limit(wide), k, x - k * Limit(wide));
  }

  // ----- AlignToPowerOfTwo

  method AlignToPowerOfTwo(value: nat, wide: bool) returns (result: nat)
    requires value < Limit(wide)
    ensures if 1 <= value <= Pow2(Width(wide) - 1) then IsLeastPower(result, value) else result == 0
  {
    result := Wrap(value - 1, wide);
    WrapAround(value - 1, if value == 0 then -1 else 0, wide);
    ghost var x := result;
    result := SmearAll(result, wide);
    BitLengthFits(x, Width(wide));
    AllOnes(result, BitLength(x), Width(wide));
    result := Wrap(result + 1, wide);
    RoundedPower(value, BitLength(x), wide);
  }

  method SmearAll(x: nat, wide: bool) returns (result: nat)
    ensures TopOnes(result, BitLength(x), Width(wide))
  {
    ghost var n := BitLength(x);
    TopBitSet(x);
    result := Smear(x, 1, n);
    result := Smear(result, 2, n);
    result := Smear(result, 4, n);
    result := Smear(result, 8, n);
    result := Smear(result, 16, n);
    if wide {
      result := Smear(result, 32, n);
    }
  }

  /** `result = result | (result >> w)`. */
  method Smear(x: nat, w: nat, ghost n: nat) returns (result: nat)
    requires w > 0 && TopOnes(x, n, w)
    ensures result == Or(x, Shift(x, w)) && TopOnes(result, n, 2 * w)
  {
    result := Or(x, Shift(x, w));
    SmearDoubles(x, n, w);
  }

  lemma {:induction false} BitLengthFits(x: nat, n: nat)
    requires x < Pow2(n)
    ensures BitLength(x) <= n
  {
    BitLengthBounds(x);
    if BitLength(x) > n {
      Monotone(n, BitLength(x) - 1);
    }
  }

  /** One more than `n` ones, where `n` is the bit length of the predecessor. */
  lemma {:induction false} RoundedPower(value: nat, n: nat, wide: bool)
    requires value < Limit(wide)
    requires n == BitLength(if value == 0 then Limit(wide) - 1 else value - 1) <= Width(wide)
    ensures var result := Wrap(Pow2(n), wide);
      if 1 <= value <= Pow2(Width(wide) - 1) then IsLeastPower(result, value) else result == 0
  {
    var w := Width(wide);
    var x := if value == 0 then Limit(wide) - 1 else value - 1;
    BitLengthBounds(x);
    if n < w {
      Monotone(n, w - 1);
    }
    WrapAround(Pow2(n), if n == w then 1 else 0, wide);
    if 1 <= value <= Pow2(w - 1) {
      BitLengthFits(x, w - 1);
      Monotone(n, w - 1);
      forall k | value <= Pow2(k)
        ensures Pow2(n) <= Pow2(k)
      {
        BitLengthFits(x, k);
        Monotone(n, k);
      }
    }
  }

  // ----- Align

  /** The largest multiple of `a` that a `size_t` holds. */
  function LastMultiple(a: nat, wide: bool): (n: nat)
    requires a > 0
  {
    (Limit(wide) - 1) / a * a
  }

  /** `alignment` is an `int` of the source, so smaller than any `size_t` range. */
  method Align(value: nat, alignment: nat, wide: bool) returns (result: nat)
    requires value < Limit(wide) && 0 < alignment < Limit(wide)
    ensures result < Limit(wide)
    ensures IsLeastMultiple(result, value, alignment) <==> value <= LastMultiple(alignment, wide)
    ensures value > LastMultiple(alignment, wide) && Limit(wide) % alignment == 0 ==> result == 0
  {
    result := value;
    if value % alignment != 0 {
      NextMultiple(value, alignment, wide);
      result := Wrap((1 + value / alignment) * alignment, wide);
    } else {
      WholeMultiple(value, alignment, wide);
    }
  }

  lemma {:induction false} Scaled(p: nat, q: nat, a: nat)
    requires p <= q
    ensures p * a <= q * a
  {
    if p < q {
      Below(p, q, a);
    }
  }

  /** Where the multiple `q * a` below `value` stands with respect to the last one below `n`. */
  lemma {:induction false} Quotients(value: nat, q: nat, a: nat, n: nat, last: nat)
    requires q * a <= value < q * a + a && value < n && last * a <= n - 1 < last * a + a
    ensures q <= last
    ensures q * a < value ==> if value <= last * a then q * a + a <= last * a else q == last
  {
    if last < q {
      Below(last, q, a);
    } else if q < last {
      Below(q, last, a);
    }
  }

  lemma {:induction false} WholeMultiple(value: nat, a: nat, wide: bool)
    requires a > 0 && value % a == 0 && value < Limit(wide)
    ensures value <= LastMultiple(a, wide)
  {
    FloorOfWhole(value, Limit(wide), a);
  }

  lemma {:induction false} FloorOfWhole(value: nat, n: nat, a: nat)
    requires a > 0 && value % a == 0 && value < n
    ensures value <= (n - 1) / a * a
  {
    var q, last := value / a, (n - 1) / a;
    Division(value, a);
    Division(n - 1, a);
    Quotients(value, q, a, n, last);
    Scaled(q, last, a);
  }

  lemma {:induction false} Distributes(q: nat, a: nat)
    ensures (1 + q) * a == q * a + a
  {
  }

  lemma {:induction false} Division(x: nat, a: nat)
    requires a > 0
    ensures x / a * a <= x < x / a * a + a && (x / a * a == x <==> x % a == 0)
  {
    assert x == x / a * a + x % a;
  }

  lemma {:induction false} Successor(value: nat, a: nat)
    requires a > 0 && value % a != 0
    ensures var next := (1 + value / a) * a;
      next % a == 0 && next == value / a * a + a && next - a < value < next
  {
    Distributes(value / a, a);
    Division(value, a);
    Modulo((1 + value / a) * a, a, 1 + value / a, 0);
  }

  lemma {:induction false} Compared(value: nat, a: nat, wide: bool, next: nat)
    requires a > 0 && value % a != 0 && value < Limit(wide) && next == value / a * a + a
    ensures if value <= LastMultiple(a, wide) then next <= LastMultiple(a, wide) < Limit(wide)
            else next == LastMultiple(a, wide) + a >= Limit(wide)
  {
    FloorsCompared(value, Limit(wide), a);
  }

  /** The same for any bound. */
  lemma {:induction false} FloorsCompared(value: nat, n: nat, a: nat)
    requires a > 0 && value % a != 0 && value < n
    ensures if value <= (n - 1) / a * a then value / a * a + a <= (n - 1) / a * a < n
            else value / a * a == (n - 1) / a * a && (n - 1) / a * a + a >= n
  {
    Division(value, a);
    Division(n - 1, a);
    Quotients(value, value / a, a, n, (n - 1) / a);
  }

  lemma {:induction false} NextMultiple(value: nat, a: nat, wide: bool)
    requires 0 < a < Limit(wide) && value % a != 0 && value < Limit(wide)
    ensures var result := Wrap((1 + value / a) * a, wide);
      && (IsLeastMultiple(result, value, a) <==> value <= LastMultiple(a, wide))
      && (value > LastMultiple(a, wide) && Limit(wide) % a == 0 ==> result == 0)
  {
    var next := (1 + value / a) * a;
    Successor(value, a);
    Compared(value, a, wide, next);
    if value <= LastMultiple(a, wide) {
      WrapAround(next, 0, wide);
    } else {
      WrapAround(next, 1, wide);
      if Limit(wide) % a == 0 {
        LastPlusOne(Limit(wide), a);
      }
    }
  }

  lemma {:induction false} LastPlusOne(n: nat, a: nat)
    requires n > 0 && a > 0 && n % a == 0
    ensures (n - 1) / a * a + a == n
  {
    var k := n / a;
    assert n == k * a && (k - 1) * a == k * a - a;
    Modulo(n - 1, a, k - 1, a - 1);
  }

  // ----- the command line

  const OLD_SPACE := "--max-old-space-size="
  const SEMI_SPACE := "--max-semi-space-size="

  /** V8 takes an underscore for each dash of an option's name. */
  predicate Matches(arg: string, argName: string) {
    && |arg| > |argName| && |arg| >= 2 && arg[0] == '-' && arg[1] == '-'
    && forall i :: 2 <= i < |argName| ==> arg[i] == argName[i] || (arg[i] == '_' && argName[i] == '-')
  }

  /** The size given last on the command line, or zero; `strtol` reads the number after the name. */
  function LastGiven(args: seq<string>, argName: string, strtol: string -> int, wide: bool): (n: nat)
    ensures n < Limit(wide)
  {
    if args == [] then 0
    else
      var arg := args[|args| - 1];
      if Matches(arg, argName) then Wrap(Megabytes(strtol(arg[|argName|..])), wide)
      else LastGiven(args[..|args| - 1], argName, strtol, wide)
  }

  /** No argument after `k` matches, and `k` does. */
  predicate IsLastMatch(args: seq<string>, argName: string, k: nat) {
    k < |args| && Matches(args[k], argName) && forall j :: k < j < |args| ==> !Matches(args[j], argName)
  }

  /** By position: the last argument that matches decides, and nothing is given if none does. */
  lemma {:induction false} LastGivenExact(args: seq<string>, argName: string, strtol: string -> int, wide: bool)
    ensures (forall j :: 0 <= j < |args| ==> !Matches(args[j], argName)) ==> LastGiven(args, argName, strtol, wide) == 0
    ensures forall k: nat :: IsLastMatch(args, argName, k) ==>
      LastGiven(args, argName, strtol, wide) == Wrap(strtol(args[k][|argName|..]) * 1024 * 1024, wide)
  {
    if forall j :: 0 <= j < |args| ==> !Matches(args[j], argName) {
      NoneGiven(args, argName, strtol, wide);
    }
    forall k: nat | IsLastMatch(args, argName, k)
      ensures LastGiven(args, argName, strtol, wide) == Wrap(strtol(args[k][|argName|..]) * 1024 * 1024, wide)
    {
      GivenAt(args, argName, strtol, wide, k);
    }
  }

  lemma {:induction false} NoneGiven(args: seq<string>, argName: string, strtol: string -> int, wide: bool)
    requires forall j :: 0 <= j < |args| ==> !Matches(args[j], argName)
    ensures LastGiven(args, argName, strtol, wide) == 0
  {
    if args != [] { NoneGiven(args[..|args| - 1], argName, strtol, wide); }
  }

  lemma {:induction false} GivenAt(args: seq<string>, argName: string, strtol: string -> int, wide: bool, k: nat)
    requires IsLastMatch(args, argName, k)
    ensures LastGiven(args, argName, strtol, wide) == Wrap(Megabytes(strtol(args[k][|argName|..])), wide)
  {
    if k < |args| - 1 {
      assert args[..|args| - 1][k] == args[k];
      GivenAt(args[..|args| - 1], argName, strtol, wide, k);
    }
  }

  method GuessSpaceSizeFromArgs(args: seq<string>, argName: string, strtol: string -> int, wide: bool)
    returns (result: nat)
    requires |argName| >= 2
    ensures result == LastGiven(args, argName, strtol, wide)
    ensures (forall j :: 0 <= j < |args| ==> !Matches(args[j], argName)) ==> result == 0
    ensures forall k: nat :: IsLastMatch(args, argName, k) ==>
      result == Wrap(strtol(args[k][|argName|..]) * 1024 * 1024, wide)
  {
    LastGivenExact(args, argName, strtol, wide);
    result := 0;
    var i := 0;
    while i < |args|
      invariant 0 <= i <= |args|
      invariant result == LastGiven(args[..i], argName, strtol, wide)
    {
      var arg := args[i];
      assert args[..i + 1][..i] == args[..i];
      if |arg| > |argName| {
        if arg[0] == '-' && arg[1] == '-' {
          var idx := MatchLength(arg, argName);
          if idx == |argName| {
            result := Wrap(Megabytes(strtol(arg[idx..])), wide);
          }
        }
      }
      i := i + 1;
    }
    assert args[..i] == args;
  }

  /** How far `arg` agrees with the name, from behind the dashes. */
  method MatchLength(arg: string, argName: string) returns (idx: nat)
    requires 2 <= |argName| < |arg|
    ensures 2 <= idx <= |argName|
    ensures idx == |argName|
      <==> forall i :: 2 <= i < |argName| ==> arg[i] == argName[i] || (arg[i] == '_' && argName[i] == '-')
  {
    idx := 2;
    while idx < |argName| && idx < |arg|
      invariant 2 <= idx <= |argName|
      invariant forall i :: 2 <= i < idx ==> arg[i] == argName[i] || (arg[i] == '_' && argName[i] == '-')
    {
      if argName[idx] != arg[idx] {
        if !(argName[idx] == '-' && arg[idx] == '_') {
          break;
        }
      }
      idx := idx + 1;
    }
  }

  // ----- the guesses

  /** What the guesses start from: the size asked for, or else V8's default. */
  function Request(args: seq<string>, argName: string, strtol: string -> int, defaultSize: nat, wide: bool): (n: nat)
    requires defaultSize < Limit(wide)
    ensures n < Limit(wide)
  {
    var given := LastGiven(args, argName, strtol, wide);
    if given == 0 then defaultSize else given
  }

  /** A size other than 0 that is given last is what the guess starts from; the default is, if none is given or 0. */
  lemma {:induction false} RequestExact(args: seq<string>, argName: string, strtol: string -> int, defaultSize: nat,
      wide: bool)
    requires defaultSize < Limit(wide)
    ensures (forall j :: 0 <= j < |args| ==> !Matches(args[j], argName)) ==>
      Request(args, argName, strtol, defaultSize, wide) == defaultSize
    ensures forall k: nat :: IsLastMatch(args, argName, k) ==>
      var size := Wrap(strtol(args[k][|argName|..]) * 1024 * 1024, wide);
      Request(args, argName, strtol, defaultSize, wide) == if size == 0 then defaultSize else size
  {
    LastGivenExact(args, argName, strtol, wide);
  }

  /** V8's heap page, in megabytes: 4 on PowerPC Linux, else 1. */
  predicate IsPage(page: nat) {
    page == 1 || page == 4
  }

  /** A multiple of the page size, at least as large as asked for and not a page more, if that fits. */
  method GuessMaxOldSpaceSize(args: seq<string>, strtol: string -> int, defaultSize: nat, page: nat, wide: bool)
    returns (result: nat)
    requires defaultSize < Limit(wide) && IsPage(page)
    ensures var request := Request(args, OLD_SPACE, strtol, defaultSize, wide);
      if 0 < request <= Limit(wide) - Megabytes(page) then IsLeastMultiple(result, request, Megabytes(page))
      else result == 0
  {
    result := GuessSpaceSizeFromArgs(args, OLD_SPACE, strtol, wide);
    if result <= 0 {
      result := defaultSize;
    }
    if result <= 0 {
      result := 0;
    } else {
      PageSize(page, wide);
      result := Align(result, Megabytes(page), wide);
    }
  }

  /** At once a power of two, a multiple of the page size, and no smaller than asked for, if that fits. */
  method GuessMaxSemiSpaceSize(args: seq<string>, strtol: string -> int, defaultSize: nat, page: nat, wide: bool)
    returns (result: nat)
    requires defaultSize < Limit(wide) && IsPage(page)
    ensures var request := Request(args, SEMI_SPACE, strtol, defaultSize, wide);
      if 0 < request <= Pow2(Width(wide) - 1)
      then result % Megabytes(page) == 0
        && IsLeastPower(result, if request < Megabytes(page) then Megabytes(page) else request)
      else result == 0
  {
    result := GuessSpaceSizeFromArgs(args, SEMI_SPACE, strtol, wide);
    if result <= 0 {
      result := defaultSize;
    }
    if result <= 0 {
      result := 0;
    } else {
      ghost var request := result;
      PageSize(page, wide);
      result := Align(result, Megabytes(page), wide);
      ghost var aligned := result;
      result := AlignToPowerOfTwo(result, wide);
      PowerOfPages(request, page, wide, aligned, result);
    }
  }

  /** The page size as a power of two, and the last multiple of it. */
  lemma {:induction false} PageSize(page: nat, wide: bool)
    requires IsPage(page)
    ensures exists p :: p <= 22 && Megabytes(page) == Pow2(p)
    ensures Limit(wide) % Megabytes(page) == 0 && Pow2(Width(wide) - 1) % Megabytes(page) == 0
    ensures LastMultiple(Megabytes(page), wide) == Limit(wide) - Megabytes(page) >= Pow2(Width(wide) - 1)
  {
    var p: nat := if page == 1 then 20 else 22;
    Pages();
    Divides(p, Width(wide));
    Divides(p, Width(wide) - 1);
    Monotone(p, Width(wide) - 1);
    LastPlusOne(Limit(wide), Megabytes(page));
  }

  lemma {:induction false} MultipleBelow(m: nat, value: nat, a: nat, b: nat)
    requires a > 0 && IsLeastMultiple(m, value, a) && b % a == 0 && value <= b
    ensures m <= b
  {
    Division(m, a);
    Division(b, a);
    if b / a < m / a {
      Below(b / a, m / a, a);
    } else {
      Scaled(m / a, b / a, a);
    }
  }

  lemma {:induction false} PowerAtLeast(p: nat, n: nat)
    requires Pow2(p) <= Pow2(n)
    ensures Pow2(n) % Pow2(p) == 0
  {
    if n < p {
      Monotone(n + 1, p);
    }
    Divides(p, n);
  }

  lemma {:induction false} LeastOfPages(request: nat, p: nat, aligned: nat, result: nat)
    requires request > 0 && IsLeastMultiple(aligned, request, Pow2(p)) && IsLeastPower(result, aligned)
    ensures result % Pow2(p) == 0
    ensures IsLeastPower(result, if request < Pow2(p) then Pow2(p) else request)
  {
    Division(aligned, Pow2(p));
    assert aligned >= Pow2(p) by {
      if aligned / Pow2(p) > 0 {
        Scaled(1, aligned / Pow2(p), Pow2(p));
      }
    }
    var n: nat :| result == Pow2(n);
    PowerAtLeast(p, n);
    forall k: nat | request <= Pow2(k) && Pow2(p) <= Pow2(k)
      ensures result <= Pow2(k)
    {
      PowerAtLeast(p, k);
      MultipleBelow(aligned, request, Pow2(p), Pow2(k));
    }
  }

  lemma {:induction false} PowerOfPages(request: nat, page: nat, wide: bool, aligned: nat, result: nat)
    requires 0 < request < Limit(wide) && IsPage(page)
    requires if request <= Limit(wide) - Megabytes(page) then IsLeastMultiple(aligned, request, Megabytes(page))
             else aligned == 0
    requires if 1 <= aligned <= Pow2(Width(wide) - 1) then IsLeastPower(result, aligned) else result == 0
    ensures if 0 < request <= Pow2(Width(wide) - 1)
      then result % Megabytes(page) == 0
        && IsLeastPower(result, if request < Megabytes(page) then Megabytes(page) else request)
      else result == 0
  {
    PageSize(page, wide);
    if request <= Pow2(Width(wide) - 1) {
      MultipleBelow(aligned, request, Megabytes(page), Pow2(Width(wide) - 1));
      var p: nat :| p <= 22 && Megabytes(page) == Pow2(p);
      LeastOfPages(request, p, aligned, result);
    }
  }

  lemma {:induction false} Pages()
    ensures Pow2(20) == 0x10_0000 && Pow2(22) == 0x40_0000
  {
    assert Pow2(2) == 4 && Pow2(3) == 8;
    PowersMultiply(2, 3);
    PowersMultiply(5, 5);
    PowersMultiply(10, 10);
    PowersMultiply(2, 20);
  }

  // ----- a request that is lost

  lemma {:induction false} GivenOnce(argName: string, digits: string, strtol: string -> int, wide: bool)
    requires |argName| >= 2 && argName[..2] == "--" && digits != ""
    ensures LastGiven([argName + digits], argName, strtol, wide) == Wrap(Megabytes(strtol(digits)), wide)
  {
    var arg := argName + digits;
    assert arg[|argName|..] == digits && argName[..2][0] == '-' && argName[..2][1] == '-';
    assert Matches(arg, argName);
  }

  lemma {:induction false} HugeMegabytes()
    ensures Pow2(63) < Wrap(Megabytes(-1), true)
  {
    Pages();
    Monotone(20, 62);
    WrapAround(Megabytes(-1), -1, true);
  }

  /** Minus one megabyte of semi-space, which the conversion to an unsigned size makes a megabyte less than 2^64
      bytes, is guessed as none. */
  method HugeSemiSpace(digits: string, strtol: string -> int) returns (result: nat)
    requires digits != "" && strtol(digits) == -1
    ensures result == 0
  {
    GivenOnce(SEMI_SPACE, digits, strtol, true);
    HugeMegabytes();
    result := GuessMaxSemiSpaceSize([SEMI_SPACE + digits], strtol, 0, 1, true);
  }
}
