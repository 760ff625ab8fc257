// What a request for an array is worth. The number of bytes is a product in the machine's word, and the pool rounds it up in
// that word again; when either wraps, the array is smaller than its owner believes.
module Requests {
  import Blocks

  /** Elements an array of `n` elements of `size` bytes has room for once the pool has granted it, or REFUSED: a request of
      zero bytes is never granted, and one that wraps in the rounding gets an empty payload. */
  function Room(word: nat, unit: nat, size: nat, n: nat): int
    requires word > 0 && size > 0
  {
    var bytes := n * size % word;
    if bytes == 0 then REFUSED else if bytes + unit - 1 >= word then 0 else bytes / size
  }

  const REFUSED: int := -1

  /** The array has room for its elements if and only if neither product nor rounding leave the word. */
  lemma RoomExact(word: nat, unit: nat, size: nat, n: nat)
    requires 0 < unit <= word && size > 0 && n > 0
    ensures Room(word, unit, size, n) >= n <==> n * size + unit - 1 < word
    ensures n * size + unit - 1 < word ==> Room(word, unit, size, n) == n
  {
    Positive(n, size);
    if n * size < word {
      Small(n * size, word);
      Quotient(n, size);
    } else {
      var bytes := n * size % word;
      assert bytes < word <= n * size;
      if bytes / size >= n { Exceeds(bytes, size, n); }
    }
  }

  lemma Positive(n: nat, size: nat)
    requires n > 0 && size > 0
    ensures n * size > 0
  {
  }

  lemma Small(x: nat, word: nat)
    requires x < word
    ensures x % word == x
  {
  }

  lemma Quotient(n: nat, size: nat)
    requires size > 0
    ensures n * size / size == n
  {
    var q: nat, r := n * size / size, n * size % size;
    var q', n': nat := q + 1, n + 1;
    assert n * size == q * size + r && 0 <= r < size;
    if q < n { Blocks.MulMonotone(q', n, size); }
    if q > n { Blocks.MulMonotone(n', q, size); }
  }

  lemma Exceeds(x: nat, size: nat, n: nat)
    requires size > 0 && x / size >= n
    ensures x >= n * size
  {
    assert x >= x / size * size;
    Blocks.MulMonotone(n, x / size, size);
  }
}
