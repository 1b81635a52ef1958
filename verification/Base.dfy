/** Small vocabulary shared by all modules: optional values, the 64-bit size limit of the
    host, and the concatenation of a list of byte strings. */
module Base {
  datatype Option<+T> = None | Some(value: T)

  /** The largest `std::size_t`. */
  const SIZE_MAX: nat := 0xFFFF_FFFF_FFFF_FFFF

  function Concat(parts: seq<string>): string {
    if parts == [] then "" else parts[0] + Concat(parts[1..])
  }

  lemma {:induction false} ConcatAppend(a: seq<string>, b: seq<string>)
    ensures Concat(a + b) == Concat(a) + Concat(b)
  {
    if a == [] {
      assert a + b == b;
    } else {
      ConcatAppend(a[1..], b);
      assert (a + b)[1..] == a[1..] + b;
    }
  }

  lemma ConcatOne(s: string)
    ensures Concat([s]) == s
  {
    assert Concat([s]) == s + Concat([]);
  }

  /** The first `n` bytes, or everything if there are fewer. */
  function Take(s: string, n: nat): string {
    if |s| <= n then s else s[..n]
  }

  lemma TakeAppend(a: string, b: string, n: nat)
    ensures Take(a + b, n) == if |a| >= n then Take(a, n) else a + Take(b, n - |a|)
  {
  }
}
