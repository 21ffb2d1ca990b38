/** Two-out-of-two additive sharing over Z_q; the random draw is an input. */
module SecretSharing {
  import opened NumberTheory

  predicate Canonical(v: int, q: int) {
    0 <= v < q
  }

  function Share(message: int, draw: int, q: int): (int, int)
    requires q >= 3
  {
    (draw, (message % q - draw) % q)
  }

  function Reconstruct(first: int, second: int, q: int): int
    requires q >= 3
  {
    (first + second) % q
  }

  function Add(left: int, right: int, q: int): int
    requires q >= 3
  {
    (left + right) % q
  }

  function Subtract(left: int, right: int, q: int): int
    requires q >= 3
  {
    (left - right) % q
  }

  function AddPublic(share: int, constant: int, q: int): int
    requires q >= 3
  {
    (share + constant % q) % q
  }

  function SubtractPublic(share: int, constant: int, q: int): int
    requires q >= 3
  {
    (share - constant % q) % q
  }

  function MultiplyPublic(share: int, constant: int, q: int): int
    requires q >= 3
  {
    (share * (constant % q)) % q
  }

  /** The shares stand for a message: their sum is congruent to it. */
  ghost predicate Shares(first: int, second: int, message: int, q: int) {
    Congruent(first + second, message, q)
  }

  /** Whatever the draw, both shares are canonical and reconstruct to the message modulo q. */
  lemma {:induction false} ShareReconstructs(message: int, draw: int, q: int)
    requires q >= 3 && Canonical(draw, q)
    ensures var (a, b) := Share(message, draw, q);
      && Canonical(a, q) && Canonical(b, q)
      && Shares(a, b, message, q) && Reconstruct(a, b, q) == message % q
  {
    var b := (message % q - draw) % q;
    CongruentRemainder(message, q);
    CongruentRemainder(message % q - draw, q);
    CongruentReflexive(draw, q);
    CongruentSum(draw, draw, b, message % q - draw, q);
    CongruentTransitive(draw + b, message % q, message, q);
    CongruentIsSameRemainder(draw + b, message, q);
  }

  lemma {:induction false} ReconstructMeaning(a: int, b: int, message: int, q: int)
    requires q >= 3 && Shares(a, b, message, q)
    ensures Congruent(Reconstruct(a, b, q), message, q) && Canonical(Reconstruct(a, b, q), q)
    ensures Reconstruct(a, b, q) == message % q
  {
    CongruentRemainder(a + b, q);
    CongruentTransitive(Reconstruct(a, b, q), a + b, message, q);
    CongruentIsSameRemainder(a + b, message, q);
  }

  // ----- what each local operation does to one share, up to congruence -----

  lemma {:induction false} AddMeaning(a: int, b: int, q: int)
    requires q >= 3
    ensures Congruent(Add(a, b, q), a + b, q) && Canonical(Add(a, b, q), q)
    ensures Congruent(Subtract(a, b, q), a - b, q) && Canonical(Subtract(a, b, q), q)
  {
    CongruentRemainder(a + b, q);
    CongruentRemainder(a - b, q);
  }

  lemma {:induction false} PublicMeaning(a: int, c: int, q: int)
    requires q >= 3
    ensures Congruent(AddPublic(a, c, q), a + c, q) && Canonical(AddPublic(a, c, q), q)
    ensures Congruent(SubtractPublic(a, c, q), a - c, q) && Canonical(SubtractPublic(a, c, q), q)
    ensures Congruent(MultiplyPublic(a, c, q), a * c, q) && Canonical(MultiplyPublic(a, c, q), q)
  {
    CongruentRemainder(c, q);
    CongruentReflexive(a, q);
    CongruentSum(a, a, c % q, c, q);
    CongruentDifference(a, a, c % q, c, q);
    CongruentProduct(a, a, c % q, c, q);
    CongruentRemainder(a + c % q, q);
    CongruentRemainder(a - c % q, q);
    CongruentRemainder(a * (c % q), q);
    CongruentTransitive(AddPublic(a, c, q), a + c % q, a + c, q);
    CongruentTransitive(SubtractPublic(a, c, q), a - c % q, a - c, q);
    CongruentTransitive(MultiplyPublic(a, c, q), a * (c % q), a * c, q);
  }

  /** The local linear operations, done by both parties, act on the shared message. */
  lemma {:induction false} LinearOperations(a0: int, a1: int, a: int, b0: int, b1: int, b: int, c: int, q: int)
    requires q >= 3 && Shares(a0, a1, a, q) && Shares(b0, b1, b, q)
    ensures Shares(Add(a0, b0, q), Add(a1, b1, q), a + b, q)
    ensures Shares(Subtract(a0, b0, q), Subtract(a1, b1, q), a - b, q)
    ensures Shares(MultiplyPublic(a0, c, q), MultiplyPublic(a1, c, q), a * c, q)
    ensures Shares(AddPublic(a0, c, q), a1, a + c, q)
    ensures Shares(SubtractPublic(a0, c, q), a1, a - c, q)
  {
    hide Congruent, Add, Subtract, AddPublic, SubtractPublic, MultiplyPublic;
    AddMeaning(a0, b0, q);
    AddMeaning(a1, b1, q);
    PublicMeaning(a0, c, q);
    PublicMeaning(a1, c, q);
    CongruentReflexive(a1, q);
    CongruentReflexive(c, q);
    Combined(Add(a0, b0, q), a0 + b0, Add(a1, b1, q), a1 + b1, a + b, q) by {
      CongruentSum(a0 + a1, a, b0 + b1, b, q);
      assert a0 + a1 + (b0 + b1) == a0 + b0 + (a1 + b1);
    }
    Combined(Subtract(a0, b0, q), a0 - b0, Subtract(a1, b1, q), a1 - b1, a - b, q) by {
      CongruentDifference(a0 + a1, a, b0 + b1, b, q);
      assert a0 + a1 - (b0 + b1) == a0 - b0 + (a1 - b1);
    }
    Combined(MultiplyPublic(a0, c, q), a0 * c, MultiplyPublic(a1, c, q), a1 * c, a * c, q) by {
      CongruentProduct(a0 + a1, a, c, c, q);
      assert (a0 + a1) * c == a0 * c + a1 * c;
    }
    Combined(AddPublic(a0, c, q), a0 + c, a1, a1, a + c, q) by {
      CongruentSum(a0 + a1, a, c, c, q);
      assert a0 + a1 + c == a0 + c + a1;
    }
    Combined(SubtractPublic(a0, c, q), a0 - c, a1, a1, a - c, q) by {
      CongruentDifference(a0 + a1, a, c, c, q);
      assert a0 + a1 - c == a0 - c + a1;
    }
  }

  lemma {:induction false} Combined(x: int, x': int, y: int, y': int, message: int, q: int)
    requires Congruent(x, x', q) && Congruent(y, y', q) && Congruent(x' + y', message, q)
    ensures Shares(x, y, message, q)
  {
    CongruentSum(x, x', y, y', q);
    CongruentTransitive(x + y, x' + y', message, q);
  }
}
