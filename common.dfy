/** Shared value types for the token model: optional values and bytes. */
module Common {

  /** An optional value; `None` stands for a JavaScript exception or `undefined`. */
  datatype Option<T> = None | Some(value: T)

  /** An octet, as held by a `Uint8Array` or a Node `Buffer`. */
  type byte = x: int | 0 <= x < 0x100

  /** Regrouping a concatenation of three sequences. */
  lemma Associative<T>(a: seq<T>, b: seq<T>, c: seq<T>)
    ensures (a + b) + c == a + (b + c)
  {
  }
}
