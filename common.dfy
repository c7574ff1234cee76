/** Values shared by every module: optional values, the exceptions the
    Python code can raise, and a result type that carries one of them. */
module Common {

  datatype Option<+T> = None | Some(value: T)

  /** The Python exceptions that the modelled code raises or lets through. */
  datatype Error =
    | FetchFailed          // an outbound call raised (transport, HTTP status or decoding)
    | KeyError(key: string)
    | ValueError
    | IndexError
    | TypeError
    | AttributeError
    | ValidationError      // pydantic rejected a record

  /** Either a value or the exception raised while computing it. */
  datatype Result<+T> = Ok(value: T) | Err(error: Error)

  /** A value of a scraped field dictionary: text, a float, or None. */
  datatype Field = Text(text: string) | Number(number: real) | Null

  /** `f` applied to every element, in order. */
  function Map<A, B>(f: A -> B, xs: seq<A>): seq<B> {
    seq(|xs|, i requires 0 <= i < |xs| => f(xs[i]))
  }

  lemma MapConcat<A, B>(f: A -> B, a: seq<A>, b: seq<A>)
    ensures Map(f, a + b) == Map(f, a) + Map(f, b)
  {
  }

  lemma MapDrop<A, B>(f: A -> B, xs: seq<A>, i: nat)
    requires i <= |xs|
    ensures Map(f, xs[i..]) == Map(f, xs)[i..]
  {
  }

  lemma MapTake<A, B>(f: A -> B, xs: seq<A>, i: nat)
    requires i <= |xs|
    ensures Map(f, xs[..i]) == Map(f, xs)[..i]
  {
  }
}
