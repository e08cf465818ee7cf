/** Lexicographic comparison of strings, the order `str::cmp` gives item ids
    and planet labels. Comparing code points in sequence orders strings the
    same way as comparing their UTF-8 bytes. */
module Ordering {

  datatype Ordering = Less | Equal | Greater

  function Compare(a: string, b: string): (r: Ordering)
    ensures r == Equal <==> a == b
  {
    if a == [] then (if b == [] then Equal else Less)
    else if b == [] then Greater
    else if a[0] < b[0] then Less
    else if b[0] < a[0] then Greater
    else
      var rest := Compare(a[1..], b[1..]);
      assert a == [a[0]] + a[1..] && b == [b[0]] + b[1..];
      rest
  }

  /** Swapping the arguments swaps Less and Greater. */
  lemma {:induction false} CompareFlip(a: string, b: string)
    ensures Compare(a, b) == Less <==> Compare(b, a) == Greater
  {
    if a != [] && b != [] && a[0] == b[0] {
      CompareFlip(a[1..], b[1..]);
    }
  }

  lemma {:induction false} CompareTransitive(a: string, b: string, c: string)
    requires Compare(a, b) == Less && Compare(b, c) == Less
    ensures Compare(a, c) == Less
  {
    if a != [] && b != [] && c != [] && a[0] == b[0] && b[0] == c[0] {
      CompareTransitive(a[1..], b[1..], c[1..]);
    }
  }

  /** `Compare` is a strict total order whose equality is string equality. */
  lemma CompareIsTotalOrder(a: string, b: string, c: string)
    ensures Compare(a, b) != Less || Compare(b, a) != Less
    ensures a != b ==> Compare(a, b) == Less || Compare(b, a) == Less
    ensures Compare(a, b) == Less && Compare(b, c) == Less ==> Compare(a, c) == Less
  {
    CompareFlip(a, b);
    if Compare(a, b) == Less && Compare(b, c) == Less {
      CompareTransitive(a, b, c);
    }
  }
}
