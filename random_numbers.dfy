/** The pseudo-random generator a selector owns (.NET's System.Random).

    Its algorithm belongs to the runtime library, so the model does not fix it:
    a generator is identified by how it was constructed and by how many numbers
    it has produced since, and the value of each draw comes from a `Draw`
    function that the selector is given. All the model relies on is what
    `Random.Next(n)` promises for `n > 0`: a value in `[0, n)`, and that a
    generator's output is a function of its construction and of the draws
    already made (so a fixed seed reproduces the same sequence).

    Counting draws also assumes that every call of `Next(n)` moves the
    generator on by the same amount whatever `n` is, as the seeded
    subtractive generator of .NET does; a generator that rejects and redraws
    would not. The draw value may depend on `n` and on the count, so no
    property proved here depends on that assumption. */
module RandomNumbers {

  /** A C# `int`. */
  newtype int32 = x: int | -0x8000_0000 <= x < 0x8000_0000

  /** How a generator was built: `new Random(seed)`, or `new Random()`, whose
      seed the runtime takes from a nondeterministic source, represented here
      by the value `entropy` it happened to supply. */
  datatype Origin = Seeded(seed: int32) | Unseeded(entropy: int)

  /** The state of a generator: its origin and the number of draws made from it. */
  datatype Random = Random(origin: Origin, drawn: nat)

  /** The generator algorithm: `f(o, k, n)` is the result of `Next(n)` when it is
      draw number `k` of a generator built as `o`. Any such function whose
      results lie in `[0, n)` will do. */
  type Draw = f: (Origin, nat, nat) -> nat | forall o, k, n :: 0 < n ==> f(o, k, n) < n
    witness (o: Origin, k: nat, n: nat) => 0

  /** A newly constructed generator: it has made no draw yet. */
  function Fresh(o: Origin): (g: Random)
    ensures g.origin == o && g.drawn == 0
  {
    Random(o, 0)
  }

  /** `Random.Next(n)`: a number in `[0, n)` and the generator one draw further on. */
  function Next(draw: Draw, g: Random, n: nat): (r: (nat, Random))
    requires 0 < n
    ensures r.0 < n
    ensures r.1.origin == g.origin && r.1.drawn == g.drawn + 1
  {
    (draw(g.origin, g.drawn, n), Random(g.origin, g.drawn + 1))
  }
}
