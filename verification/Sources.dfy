/** Where fresh identifiers and random vectors come from: foreign generators, as streams. */
module Sources {
  import opened Encryption

  /** The uuid generator; it does not repeat itself. */
  class IdSource {
    const stream: nat -> string
    var next: nat

    constructor (stream: nat -> string)
      ensures this.stream == stream && next == 0
    {
      this.stream, next := stream, 0;
    }

    ghost predicate Valid() {
      forall i: nat, j: nat :: i != j ==> stream(i) != stream(j)
    }

    method Draw() returns (id: string)
      modifies this
      ensures id == stream(old(next)) && next == old(next) + 1
    {
      id := stream(next);
      next := next + 1;
    }
  }

  /** The generator of initial vectors. */
  class VectorSource {
    const stream: nat -> InitVector
    var next: nat

    constructor (stream: nat -> InitVector)
      ensures this.stream == stream && next == 0
    {
      this.stream, next := stream, 0;
    }

    method Draw() returns (iv: InitVector)
      modifies this
      ensures iv == stream(old(next)) && next == old(next) + 1
    {
      iv := stream(next);
      next := next + 1;
    }
  }
}
