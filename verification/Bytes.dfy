// Bytes, results and slices.
module Bytes {
  type Byte = b: int | 0 <= b < 256

  datatype Option<+T> = None | Some(value: T)

  datatype Result<+T, +E> = Ok(value: T) | Err(error: E)

  ghost predicate NoDup<T>(q: seq<T>) {
    forall i, j :: 0 <= i < j < |q| ==> q[i] != q[j]
  }

  function SaturatingSub(a: nat, b: nat): nat {
    if a > b then a - b else 0
  }

  // Two adjacent slices of a sequence that together hold `x + y` hold `x` and `y`.
  lemma SplitSlice<T>(s: seq<T>, a: nat, b: nat, x: seq<T>, y: seq<T>)
    requires a <= b <= |s|
    requires s[a..b] == x + y
    ensures a + |x| <= b
    ensures s[a..a + |x|] == x
    ensures s[a + |x|..b] == y
  {
    assert |x + y| == b - a;
    assert s[a..a + |x|] == s[a..b][..|x|];
    assert s[a + |x|..b] == s[a..b][|x|..];
  }

  // `copy_from_slice`.
  method CopyInto(buffer: array<Byte>, at: nat, bytes: seq<Byte>)
    requires at + |bytes| <= buffer.Length
    modifies buffer
    ensures buffer[..at] == old(buffer[..at]) && buffer[at..at + |bytes|] == bytes
    ensures buffer[at + |bytes|..] == old(buffer[at + |bytes|..])
  {
    for i := 0 to |bytes|
      invariant buffer[..at] == old(buffer[..at]) && buffer[at..at + i] == bytes[..i]
      invariant buffer[at + |bytes|..] == old(buffer[at + |bytes|..])
    {
      buffer[at + i] := bytes[i];
    }
  }
}

// A flag over time that something sets while it is held, and that goes when it is let go.
module Latches {
  ghost predicate SetAndHeld(ask: nat -> bool, held: nat -> bool, n: nat, k: nat) {
    k < n && ask(k) && forall j :: k <= j <= n ==> held(j)
  }

  ghost predicate LatchStep(flag: nat -> bool, ask: nat -> bool, held: nat -> bool, i: nat) {
    flag(i + 1) <==> held(i + 1) && held(i) && (flag(i) || ask(i))
  }

  lemma {:induction false} LatchIff(flag: nat -> bool, ask: nat -> bool, held: nat -> bool, n: nat)
    requires !flag(0)
    requires forall i: nat :: i < n ==> LatchStep(flag, ask, held, i)
    ensures flag(n) <==> exists k :: SetAndHeld(ask, held, n, k)
  {
    if n > 0 {
      LatchIff(flag, ask, held, n - 1);
      assert LatchStep(flag, ask, held, n - 1);
      if k: nat :| SetAndHeld(ask, held, n, k) {
        if k < n - 1 {
          assert SetAndHeld(ask, held, n - 1, k);
        }
      }
      if flag(n) {
        if flag(n - 1) {
          var k: nat :| SetAndHeld(ask, held, n - 1, k);
          assert SetAndHeld(ask, held, n, k);
        } else {
          assert SetAndHeld(ask, held, n, n - 1);
        }
      }
    }
  }
}
