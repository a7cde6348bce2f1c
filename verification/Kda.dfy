/** Kimi Delta Attention over exact reals: the O(T) recurrence and its chunk-parallel form
    (research/kda-kimi-linear/kda.py), for one batch entry, one head and one value column. */
module Kda {
  import opened Wrappers

  type Vec = seq<real>

  // ----- Vectors and sums

  function Times(a: real, b: real): real {
    a * b
  }

  function Add(x: Vec, y: Vec): (r: Vec)
    requires |x| == |y|
    ensures |r| == |x| && forall i | 0 <= i < |x| :: r[i] == x[i] + y[i]
  {
    seq(|x|, i requires 0 <= i < |x| => x[i] + y[i])
  }

  function Mul(x: Vec, y: Vec): (r: Vec)
    requires |x| == |y|
    ensures |r| == |x| && forall i | 0 <= i < |x| :: r[i] == Times(x[i], y[i])
  {
    seq(|x|, i requires 0 <= i < |x| => Times(x[i], y[i]))
  }

  predicate NonZero(x: Vec) {
    forall i | 0 <= i < |x| :: x[i] != 0.0
  }

  function Div(x: Vec, y: Vec): (r: Vec)
    requires |x| == |y| && NonZero(y)
    ensures |r| == |x| && forall i | 0 <= i < |x| :: r[i] == x[i] / y[i]
  {
    seq(|x|, i requires 0 <= i < |x| => x[i] / y[i])
  }

  function Scale(c: real, x: Vec): (r: Vec)
    ensures |r| == |x| && forall i | 0 <= i < |x| :: r[i] == Times(c, x[i])
  {
    seq(|x|, i requires 0 <= i < |x| => Times(c, x[i]))
  }

  function Fill(d: nat, c: real): (r: Vec)
    ensures |r| == d && forall i | 0 <= i < d :: r[i] == c
  {
    seq(d, i => c)
  }

  function Dot(x: Vec, y: Vec): real
    requires |x| == |y|
  {
    if x == [] then 0.0 else Times(x[0], y[0]) + Dot(x[1..], y[1..])
  }

  function SumTo(n: nat, f: nat -> real): real {
    if n == 0 then 0.0 else SumTo(n - 1, f) + f(n - 1)
  }

  // The sum of the first n rows, each with its weight.
  function WeightedSum(d: nat, weights: seq<real>, rows: seq<Vec>, n: nat): (r: Vec)
    requires n <= |weights| && n <= |rows| && forall l | 0 <= l < n :: |rows[l]| == d
    ensures |r| == d
  {
    if n == 0 then Fill(d, 0.0)
    else Add(WeightedSum(d, weights, rows, n - 1), Scale(weights[n - 1], rows[n - 1]))
  }

  lemma TimesAssoc(a: real, b: real, c: real)
    ensures Times(a, Times(b, c)) == Times(Times(a, b), c)
    ensures Times(a, Times(b, c)) == Times(b, Times(a, c))
    ensures Times(b, a) == Times(a, b)
  {}

  lemma TimesDistributes(a: real, b: real, c: real)
    ensures Times(a, b + c) == Times(a, b) + Times(a, c)
    ensures Times(b + c, a) == Times(b, a) + Times(c, a)
  {}

  lemma {:induction false} DotAdd(x: Vec, y: Vec, z: Vec)
    requires |x| == |y| == |z|
    ensures Dot(x, Add(y, z)) == Dot(x, y) + Dot(x, z)
  {
    if x != [] {
      DotAdd(x[1..], y[1..], z[1..]);
      TimesDistributes(x[0], y[0], z[0]);
      assert Add(y, z)[1..] == Add(y[1..], z[1..]);
    }
  }

  lemma {:induction false} DotScale(x: Vec, c: real, y: Vec)
    requires |x| == |y|
    ensures Dot(x, Scale(c, y)) == Times(c, Dot(x, y))
  {
    if x != [] {
      DotScale(x[1..], c, y[1..]);
      TimesDistributes(c, Times(x[0], y[0]), Dot(x[1..], y[1..]));
      TimesAssoc(x[0], c, y[0]);
      assert Scale(c, y)[1..] == Scale(c, y[1..]);
    }
  }

  lemma {:induction false} DotZero(x: Vec, y: Vec)
    requires |x| == |y| && forall i | 0 <= i < |x| :: x[i] == 0.0 || y[i] == 0.0
    ensures Dot(x, y) == 0.0
  {
    if x != [] {
      DotZero(x[1..], y[1..]);
    }
  }

  lemma {:induction false} DotMul(x: Vec, a: Vec, y: Vec)
    requires |x| == |a| == |y|
    ensures Dot(x, Mul(a, y)) == Dot(Mul(x, a), y)
  {
    if x != [] {
      DotMul(x[1..], a[1..], y[1..]);
      TimesAssoc(x[0], a[0], y[0]);
      assert Mul(a, y)[1..] == Mul(a[1..], y[1..]);
      assert Mul(x, a)[1..] == Mul(x[1..], a[1..]);
    }
  }

  lemma {:induction false} DotWeightedSum(x: Vec, weights: seq<real>, rows: seq<Vec>, n: nat)
    requires n <= |weights| && n <= |rows| && forall l | 0 <= l < n :: |rows[l]| == |x|
    ensures Dot(x, WeightedSum(|x|, weights, rows, n)) ==
            SumTo(n, (l: nat) => if l < n then Times(weights[l], Dot(x, rows[l])) else 0.0)
  {
    if n == 0 {
      DotZero(x, Fill(|x|, 0.0));
    } else {
      DotWeightedSum(x, weights, rows, n - 1);
      DotAdd(x, WeightedSum(|x|, weights, rows, n - 1), Scale(weights[n - 1], rows[n - 1]));
      DotScale(x, weights[n - 1], rows[n - 1]);
      SumToCongruent(n - 1, (l: nat) => if l < n - 1 then Times(weights[l], Dot(x, rows[l])) else 0.0,
                     (l: nat) => if l < n then Times(weights[l], Dot(x, rows[l])) else 0.0);
    }
  }

  lemma {:induction false} SumToCongruent(n: nat, f: nat -> real, g: nat -> real)
    requires forall l: nat | l < n :: f(l) == g(l)
    ensures SumTo(n, f) == SumTo(n, g)
  {
    if n > 0 {
      SumToCongruent(n - 1, f, g);
    }
  }

  // Terms masked to zero beyond the first `m` do not count.
  lemma {:induction false} SumToMasked(n: nat, m: nat, f: nat -> real, g: nat -> real)
    requires m <= n && forall l: nat | l < n :: f(l) == if l < m then g(l) else 0.0
    ensures SumTo(n, f) == SumTo(m, g)
  {
    if n == m {
      SumToCongruent(n, f, g);
    } else {
      SumToMasked(n - 1, m, f, g);
    }
  }

  // ----- The recurrence

  datatype Token = Token(q: Vec, k: Vec, v: real, alpha: Vec, beta: real)

  ghost predicate Shaped(d: nat, tokens: seq<Token>) {
    forall t | t in tokens :: |t.q| == d && |t.k| == d && |t.alpha| == d
  }

  // One step of the paper's equation 1, the state after it, and the output read from it.
  function StepState(s: Vec, t: Token): (r: Vec)
    requires |s| == |t.k| == |t.alpha|
    ensures |r| == |s|
  {
    var decayed := Mul(t.alpha, s);
    var u := t.v - Dot(t.k, decayed);
    Add(decayed, Scale(t.beta, Scale(u, t.k)))
  }

  function States(d: nat, s: Vec, tokens: seq<Token>): (r: Vec)
    requires |s| == d && Shaped(d, tokens)
    ensures |r| == d
  {
    if tokens == [] then s
    else
      var last := tokens[|tokens| - 1];
      assert last in tokens && forall t | t in tokens[..|tokens| - 1] :: t in tokens;
      StepState(States(d, s, tokens[..|tokens| - 1]), last)
  }

  function Outputs(d: nat, s: Vec, tokens: seq<Token>): (r: seq<real>)
    requires |s| == d && Shaped(d, tokens)
    ensures |r| == |tokens|
  {
    if tokens == [] then []
    else
      var init, last := tokens[..|tokens| - 1], tokens[|tokens| - 1];
      assert last in tokens && forall t | t in init :: t in tokens;
      Outputs(d, s, init) + [Dot(last.q, States(d, s, tokens))]
  }

  lemma RecurrenceSnoc(d: nat, s: Vec, a: seq<Token>, t: Token)
    requires |s| == d && Shaped(d, a) && Shaped(d, [t])
    ensures Shaped(d, a + [t])
    ensures States(d, s, a + [t]) == StepState(States(d, s, a), t)
    ensures Outputs(d, s, a + [t]) == Outputs(d, s, a) + [Dot(t.q, StepState(States(d, s, a), t))]
  {
    assert t in [t];
    var b := a + [t];
    assert b[..|b| - 1] == a && b[|b| - 1] == t;
  }

  // The body of the time loop.
  method RecurrentStep(s: Vec, token: Token) returns (next: Vec, o: real)
    requires |s| == |token.q| == |token.k| == |token.alpha|
    ensures next == StepState(s, token) && o == Dot(token.q, next)
  {
    var decayed := Mul(token.alpha, s);
    var u := token.v - Dot(token.k, decayed);
    next := Add(decayed, Scale(token.beta, Scale(u, token.k)));
    o := Dot(token.q, next);
  }

  method KdaRecurrent(d: nat, tokens: seq<Token>, s0: Option<Vec>) returns (out: seq<real>, s: Vec)
    requires Shaped(d, tokens) && (s0.Some? ==> |s0.value| == d)
    ensures var start := if s0.Some? then s0.value else Fill(d, 0.0);
            out == Outputs(d, start, tokens) && s == States(d, start, tokens)
  {
    s := match s0 case None => Fill(d, 0.0) case Some(x) => x;
    out := [];
    ghost var start := s;
    for t := 0 to |tokens|
      invariant Shaped(d, tokens[..t]) && |s| == d
      invariant s == States(d, start, tokens[..t])
      invariant out == Outputs(d, start, tokens[..t])
    {
      var token := tokens[t];
      ShapedToken(d, tokens, t);
      RecurrenceNext(d, start, tokens, t);
      var o: real;
      s, o := RecurrentStep(s, token);
      out := out + [o];
    }
    assert tokens[..|tokens|] == tokens;
  }

  lemma RecurrenceNext(d: nat, s: Vec, tokens: seq<Token>, t: nat)
    requires |s| == d && t < |tokens| && Shaped(d, tokens)
    ensures Shaped(d, tokens[..t]) && Shaped(d, tokens[..t + 1])
    ensures |tokens[t].q| == |tokens[t].k| == |tokens[t].alpha| == d
    ensures States(d, s, tokens[..t + 1]) == StepState(States(d, s, tokens[..t]), tokens[t])
    ensures Outputs(d, s, tokens[..t + 1]) ==
            Outputs(d, s, tokens[..t]) + [Dot(tokens[t].q, StepState(States(d, s, tokens[..t]), tokens[t]))]
  {
    ShapedToken(d, tokens, t);
    assert tokens == tokens[..t] + [tokens[t]] + tokens[t + 1..];
    ShapedConcat(d, tokens[..t] + [tokens[t]], tokens[t + 1..]);
    ShapedConcat(d, tokens[..t], [tokens[t]]);
    assert tokens[..t + 1] == tokens[..t] + [tokens[t]];
    RecurrenceSnoc(d, s, tokens[..t], tokens[t]);
  }

  lemma ShapedToken(d: nat, tokens: seq<Token>, t: nat)
    requires Shaped(d, tokens) && t < |tokens|
    ensures var x := tokens[t]; |x.q| == d && |x.k| == d && |x.alpha| == d
    ensures Shaped(d, [tokens[t]])
  {
    assert tokens[t] in tokens;
  }

  lemma ShapedConcat(d: nat, a: seq<Token>, b: seq<Token>)
    ensures Shaped(d, a + b) <==> Shaped(d, a) && Shaped(d, b)
  {
    assert forall t | t in a :: t in a + b;
    assert forall t | t in b :: t in a + b;
  }

  lemma {:induction false} RecurrenceConcat(d: nat, s: Vec, a: seq<Token>, b: seq<Token>)
    requires |s| == d && Shaped(d, a) && Shaped(d, b)
    ensures Shaped(d, a + b)
    ensures States(d, s, a + b) == States(d, States(d, s, a), b)
    ensures Outputs(d, s, a + b) == Outputs(d, s, a) + Outputs(d, States(d, s, a), b)
    decreases |b|
  {
    ShapedConcat(d, a, b);
    if b == [] {
      assert a + b == a;
    } else {
      var init, last := b[..|b| - 1], b[|b| - 1];
      assert b == init + [last] && a + b == a + init + [last];
      ShapedConcat(d, init, [last]);
      RecurrenceConcat(d, s, a, init);
      RecurrenceSnoc(d, s, a + init, last);
      RecurrenceSnoc(d, States(d, s, a), init, last);
    }
  }

  // ----- The chunk-parallel form

  function Clamp(alpha: Vec, eps: real): (r: Vec)
    ensures |r| == |alpha| && forall i | 0 <= i < |alpha| :: r[i] == if alpha[i] < eps then eps else alpha[i]
  {
    seq(|alpha|, i requires 0 <= i < |alpha| => if alpha[i] < eps then eps else alpha[i])
  }

  function ClampToken(t: Token, eps: real): Token {
    t.(alpha := Clamp(t.alpha, eps))
  }

  function ClampAll(tokens: seq<Token>, eps: real): (r: seq<Token>)
    ensures |r| == |tokens| && forall i | 0 <= i < |tokens| :: r[i] == ClampToken(tokens[i], eps)
  {
    seq(|tokens|, i requires 0 <= i < |tokens| => ClampToken(tokens[i], eps))
  }

  // A chunk of the right shape with positive decay in every channel.
  ghost predicate Gated(d: nat, chunk: seq<Token>) {
    forall i | 0 <= i < |chunk| ::
      |chunk[i].q| == d && |chunk[i].k| == d && |chunk[i].alpha| == d
      && forall c | 0 <= c < d :: chunk[i].alpha[c] > 0.0
  }

  // The cumulative gates exp(cumsum(log(alpha))): running products of the decay.
  function Gate(d: nat, chunk: seq<Token>, n: nat): (r: Vec)
    requires Gated(d, chunk) && n <= |chunk|
    ensures |r| == d && forall i | 0 <= i < d :: r[i] > 0.0
  {
    if n == 0 then Fill(d, 1.0)
    else
      PositiveMul(chunk[n - 1].alpha, Gate(d, chunk, n - 1));
      Mul(chunk[n - 1].alpha, Gate(d, chunk, n - 1))
  }

  lemma PositiveMul(x: Vec, y: Vec)
    requires |x| == |y| && (forall i | 0 <= i < |x| :: x[i] > 0.0) && forall i | 0 <= i < |y| :: y[i] > 0.0
    ensures forall i | 0 <= i < |x| :: Mul(x, y)[i] > 0.0
  {
    forall i | 0 <= i < |x|
      ensures Mul(x, y)[i] > 0.0
    {
      var a, b := x[i], y[i];
      assert a * b > 0.0;
    }
  }

  ghost predicate UnitLowerTriangular(m: seq<seq<real>>) {
    && (forall i | 0 <= i < |m| :: |m[i]| == |m|)
    && forall i, l | 0 <= i < |m| && 0 <= l < |m| :: (i == l ==> m[i][l] == 1.0) && (i < l ==> m[i][l] == 0.0)
  }

  function RowTerm(row: seq<real>, u: seq<real>): nat -> real
    requires |row| == |u|
  {
    (l: nat) => if l < |row| then Times(row[l], u[l]) else 0.0
  }

  // The library's unit-triangular solve: the returned vector satisfies every row's equation.
  method SolveTriangular(m: seq<seq<real>>, rhs: seq<real>) returns (u: seq<real>)
    requires UnitLowerTriangular(m) && |rhs| == |m|
    ensures |u| == |m|
    ensures forall i | 0 <= i < |m| :: SumTo(|m|, RowTerm(m[i], u)) == rhs[i]
  {
    u := [];
    for i := 0 to |m|
      invariant |u| == i
      invariant forall j | 0 <= j < i :: SumTo(|m|, RowTerm(m[j], u + Fill(|m| - i, 0.0))) == rhs[j]
    {
      var known := 0.0;
      var l := 0;
      var term := RowTerm(m[i], u + Fill(|m| - i, 0.0));
      while l < i
        invariant l <= i && known == SumTo(l, term)
      {
        known := known + Times(m[i][l], u[l]);
        l := l + 1;
      }
      ghost var before := u;
      u := u + [rhs[i] - known];
      forall j | 0 <= j < i + 1
        ensures SumTo(|m|, RowTerm(m[j], u + Fill(|m| - i - 1, 0.0))) == rhs[j]
      {
        SolveRow(m, before, rhs[i] - known, i, j);
      }
    }
    assert u + Fill(0, 0.0) == u;
  }

  // Adding one more unknown changes no earlier row, and its own row by exactly its value.
  lemma SolveRow(m: seq<seq<real>>, u: seq<real>, x: real, i: nat, j: nat)
    requires UnitLowerTriangular(m) && j <= i < |m| && |u| == i
    ensures SumTo(|m|, RowTerm(m[j], u + [x] + Fill(|m| - i - 1, 0.0))) ==
            if j < i then SumTo(|m|, RowTerm(m[j], u + Fill(|m| - i, 0.0)))
            else SumTo(i, RowTerm(m[i], u + Fill(|m| - i, 0.0))) + x
  {
    var f := RowTerm(m[j], u + [x] + Fill(|m| - i - 1, 0.0));
    var g := RowTerm(m[j], u + Fill(|m| - i, 0.0));
    if j < i {
      SumToCongruent(|m|, f, g);
    } else {
      SumToMasked(|m|, i + 1, f, f);
      SumToCongruent(i, f, g);
    }
  }

  // The unit-triangular system has no other solution.
  lemma {:induction false} SolutionUnique(m: seq<seq<real>>, rhs: seq<real>, u: seq<real>, w: seq<real>, i: nat)
    requires UnitLowerTriangular(m) && |rhs| == |u| == |w| == |m| && i < |m|
    requires forall j | 0 <= j < |m| :: SumTo(|m|, RowTerm(m[j], u)) == rhs[j]
    requires forall j | 0 <= j < |m| :: SumTo(|m|, RowTerm(m[j], w)) == rhs[j]
    ensures u[i] == w[i]
    decreases i
  {
    forall j: nat | j < i
      ensures u[j] == w[j]
    {
      SolutionUnique(m, rhs, u, w, j);
    }
    var f, g := RowTerm(m[i], u), RowTerm(m[i], w);
    assert forall l: nat | i < l < |m| :: m[i][l] == 0.0 && f(l) == 0.0 && g(l) == 0.0;
    SumToMasked(|m|, i + 1, f, f);
    SumToMasked(|m|, i + 1, g, g);
    SumToCongruent(i, f, g);
    assert f(i) == u[i] && g(i) == w[i];
  }

  // k / a, k * a and q * a of the position `i`, with the gate `a` up to and including `i`.
  function KHat(d: nat, chunk: seq<Token>, i: nat): (r: Vec)
    requires Gated(d, chunk) && i < |chunk|
    ensures |r| == d
  {
    Div(chunk[i].k, Gate(d, chunk, i + 1))
  }

  function KBar(d: nat, chunk: seq<Token>, i: nat): (r: Vec)
    requires Gated(d, chunk) && i < |chunk|
    ensures |r| == d
  {
    Mul(chunk[i].k, Gate(d, chunk, i + 1))
  }

  function QBar(d: nat, chunk: seq<Token>, i: nat): (r: Vec)
    requires Gated(d, chunk) && i < |chunk|
    ensures |r| == d
  {
    Mul(chunk[i].q, Gate(d, chunk, i + 1))
  }

  function KHats(d: nat, chunk: seq<Token>): (r: seq<Vec>)
    requires Gated(d, chunk)
    ensures |r| == |chunk| && forall i | 0 <= i < |chunk| :: r[i] == KHat(d, chunk, i) && |r[i]| == d
  {
    seq(|chunk|, i requires 0 <= i < |chunk| => KHat(d, chunk, i))
  }

  // The entry of eye + strict_tril(M), M[i,l] = beta_l (k_bar_i . k_hat_l).
  function SystemEntry(d: nat, chunk: seq<Token>, i: nat, l: nat): real
    requires Gated(d, chunk) && i < |chunk| && l < |chunk|
  {
    if i == l then 1.0
    else if i > l then Times(Dot(KBar(d, chunk, i), KHat(d, chunk, l)), chunk[l].beta)
    else 0.0
  }

  function System(d: nat, chunk: seq<Token>): (m: seq<seq<real>>)
    requires Gated(d, chunk)
    ensures |m| == |chunk| && forall i | 0 <= i < |m| :: |m[i]| == |m|
    ensures forall i, l | 0 <= i < |m| && 0 <= l < |m| :: m[i][l] == SystemEntry(d, chunk, i, l)
  {
    seq(|chunk|, i requires 0 <= i < |chunk| =>
      seq(|chunk|, l requires 0 <= l < |chunk| => SystemEntry(d, chunk, i, l)))
  }

  function Rhs(d: nat, chunk: seq<Token>, s: Vec): (r: seq<real>)
    requires Gated(d, chunk) && |s| == d
    ensures |r| == |chunk|
    ensures forall i | 0 <= i < |chunk| :: r[i] == chunk[i].v - Dot(KBar(d, chunk, i), s)
  {
    seq(|chunk|, i requires 0 <= i < |chunk| => chunk[i].v - Dot(KBar(d, chunk, i), s))
  }

  function Weighted(chunk: seq<Token>, u: seq<real>): (r: seq<real>)
    requires |u| == |chunk|
    ensures |r| == |chunk| && forall i | 0 <= i < |chunk| :: r[i] == Times(chunk[i].beta, u[i])
  {
    seq(|chunk|, i requires 0 <= i < |chunk| => Times(chunk[i].beta, u[i]))
  }

  // The masked intra-chunk terms (q_bar_i . k_hat_l) (beta_l u_l), l <= i.
  function IntraTerm(d: nat, chunk: seq<Token>, bu: seq<real>, i: nat): nat -> real
    requires Gated(d, chunk) && |bu| == |chunk| && i < |chunk|
  {
    (l: nat) => if l <= i then Times(Dot(QBar(d, chunk, i), KHat(d, chunk, l)), bu[l]) else 0.0
  }

  function ChunkOutput(d: nat, chunk: seq<Token>, s: Vec, bu: seq<real>, i: nat): real
    requires Gated(d, chunk) && |s| == d && |bu| == |chunk| && i < |chunk|
  {
    Dot(QBar(d, chunk, i), s) + SumTo(|chunk|, IntraTerm(d, chunk, bu, i))
  }

  // ----- Why a chunk computes what the recurrence computes

  // The state after the first n positions before the gate is applied.
  function Carried(d: nat, chunk: seq<Token>, s: Vec, bu: seq<real>, n: nat): (r: Vec)
    requires Gated(d, chunk) && |s| == d && |bu| == |chunk| && n <= |chunk|
    ensures |r| == d
  {
    Add(s, WeightedSum(d, bu, KHats(d, chunk), n))
  }

  lemma GateStep(alpha: Vec, g: Vec, w: Vec)
    requires |alpha| == |g| == |w|
    ensures Mul(alpha, Mul(g, w)) == Mul(Mul(alpha, g), w)
  {
    forall i | 0 <= i < |w|
      ensures Mul(alpha, Mul(g, w))[i] == Mul(Mul(alpha, g), w)[i]
    {
      TimesAssoc(alpha[i], g[i], w[i]);
    }
  }

  lemma DivCancel(g: real, w: real, b: real, u: real, k: real)
    requires g != 0.0
    ensures Times(g, w) + Times(b, Times(u, k)) == Times(g, w + Times(Times(b, u), k / g))
  {
    var c := b * u;
    assert g * (k / g) == k;
    assert g * (c * (k / g)) == c * (g * (k / g));
    assert b * (u * k) == c * k;
  }

  // Writing k into the gated state is writing k / a into the carried state.
  lemma WriteStep(g: Vec, w: Vec, b: real, u: real, k: Vec)
    requires |g| == |w| == |k| && NonZero(g)
    ensures Add(Mul(g, w), Scale(b, Scale(u, k))) == Mul(g, Add(w, Scale(Times(b, u), Div(k, g))))
  {
    forall i | 0 <= i < |g|
      ensures Add(Mul(g, w), Scale(b, Scale(u, k)))[i] == Mul(g, Add(w, Scale(Times(b, u), Div(k, g))))[i]
    {
      DivCancel(g[i], w[i], b, u, k[i]);
    }
  }

  lemma CarriedStep(d: nat, chunk: seq<Token>, s: Vec, bu: seq<real>, n: nat)
    requires Gated(d, chunk) && |s| == d && |bu| == |chunk| && n < |chunk|
    ensures Carried(d, chunk, s, bu, n + 1) == Add(Carried(d, chunk, s, bu, n), Scale(bu[n], KHat(d, chunk, n)))
  {
    var hats := KHats(d, chunk);
    AddAssoc(s, WeightedSum(d, bu, hats, n), Scale(bu[n], hats[n]));
  }

  lemma AddAssoc(a: Vec, b: Vec, c: Vec)
    requires |a| == |b| == |c|
    ensures Add(Add(a, b), c) == Add(a, Add(b, c))
  {
  }

  // A product with the carried state, term by term.
  lemma DotCarried(x: Vec, d: nat, chunk: seq<Token>, s: Vec, bu: seq<real>, n: nat)
    requires Gated(d, chunk) && |s| == d && |bu| == |chunk| && n <= |chunk| && |x| == d
    ensures Dot(x, Carried(d, chunk, s, bu, n)) ==
            Dot(x, s) + SumTo(n, (l: nat) => if l < n then Times(bu[l], Dot(x, KHat(d, chunk, l))) else 0.0)
  {
    var hats := KHats(d, chunk);
    DotAdd(x, s, WeightedSum(d, bu, hats, n));
    DotWeightedSum(x, bu, hats, n);
    SumToCongruent(n, (l: nat) => if l < n then Times(bu[l], Dot(x, hats[l])) else 0.0,
                   (l: nat) => if l < n then Times(bu[l], Dot(x, KHat(d, chunk, l))) else 0.0);
  }

  ghost predicate Solves(d: nat, chunk: seq<Token>, s: Vec, u: seq<real>)
    requires Gated(d, chunk) && |s| == d
  {
    && |u| == |chunk|
    && forall i | 0 <= i < |chunk| :: SumTo(|chunk|, RowTerm(System(d, chunk)[i], u)) == Rhs(d, chunk, s)[i]
  }

  // The terms of row n of the system: the earlier deltas, each with its weight, and the row's own.
  lemma RowEntry(d: nat, chunk: seq<Token>, u: seq<real>, n: nat, l: nat)
    requires Gated(d, chunk) && |u| == |chunk| && n < |chunk| && l < |chunk|
    ensures RowTerm(System(d, chunk)[n], u)(l) ==
            if l < n then Times(Weighted(chunk, u)[l], Dot(KBar(d, chunk, n), KHat(d, chunk, l))) else if l == n then u[n] else 0.0
  {
    if l < n {
      var x := Dot(KBar(d, chunk, n), KHat(d, chunk, l));
      TimesAssoc(x, chunk[l].beta, u[l]);
      TimesAssoc(1.0, Weighted(chunk, u)[l], x);
    }
  }

  lemma {:induction false} SumToLast(m: nat, n: nat, f: nat -> real, g: nat -> real, last: real)
    requires n < m && forall l: nat | l < m :: f(l) == if l < n then g(l) else if l == n then last else 0.0
    ensures SumTo(m, f) == SumTo(n, g) + last
  {
    if m == n + 1 {
      SumToCongruent(n, f, g);
    } else {
      SumToLast(m - 1, n, f, g, last);
    }
  }

  // A row of the system adds up to the row's own delta and the weighted earlier ones.
  lemma RowSum(d: nat, chunk: seq<Token>, u: seq<real>, n: nat, g: nat -> real)
    requires Gated(d, chunk) && |u| == |chunk| && n < |chunk|
    requires forall l: nat | l < n :: g(l) == Times(Weighted(chunk, u)[l], Dot(KBar(d, chunk, n), KHat(d, chunk, l)))
    ensures SumTo(|chunk|, RowTerm(System(d, chunk)[n], u)) == SumTo(n, g) + u[n]
  {
    var f := RowTerm(System(d, chunk)[n], u);
    forall l: nat | l < |chunk|
      ensures f(l) == if l < n then g(l) else if l == n then u[n] else 0.0
    {
      RowEntry(d, chunk, u, n, l);
    }
    SumToLast(|chunk|, n, f, g, u[n]);
  }

  // Row n of the triangular system says what the delta rule computes at position n.
  lemma SolvedDelta(d: nat, chunk: seq<Token>, s: Vec, u: seq<real>, n: nat)
    requires Gated(d, chunk) && |s| == d && Solves(d, chunk, s, u) && n < |chunk|
    ensures u[n] == chunk[n].v - Dot(KBar(d, chunk, n), Carried(d, chunk, s, Weighted(chunk, u), n))
  {
    var bu, kb := Weighted(chunk, u), KBar(d, chunk, n);
    var g := (l: nat) => if l < n then Times(bu[l], Dot(kb, KHat(d, chunk, l))) else 0.0;
    DotCarried(kb, d, chunk, s, bu, n);
    RowSum(d, chunk, u, n, g);
  }

  lemma GateNext(d: nat, chunk: seq<Token>, n: nat)
    requires Gated(d, chunk) && n < |chunk|
    ensures Gate(d, chunk, n + 1) == Mul(chunk[n].alpha, Gate(d, chunk, n))
    ensures NonZero(Gate(d, chunk, n + 1))
  {}

  // One step of the recurrence from the gated carried state is the next gated carried state.
  lemma ChunkStep(d: nat, chunk: seq<Token>, s: Vec, u: seq<real>, n: nat)
    requires Gated(d, chunk) && |s| == d && Solves(d, chunk, s, u) && n < |chunk|
    ensures var bu := Weighted(chunk, u);
            StepState(Mul(Gate(d, chunk, n), Carried(d, chunk, s, bu, n)), chunk[n])
            == Mul(Gate(d, chunk, n + 1), Carried(d, chunk, s, bu, n + 1))
  {
    var bu, t := Weighted(chunk, u), chunk[n];
    var w, g := Carried(d, chunk, s, bu, n), Gate(d, chunk, n + 1);
    GateNext(d, chunk, n);
    GateStep(t.alpha, Gate(d, chunk, n), w);
    DotMul(t.k, g, w);
    SolvedDelta(d, chunk, s, u, n);
    StepFromCarried(Mul(Gate(d, chunk, n), w), t, g, w, u[n]);
    CarriedStep(d, chunk, s, bu, n);
  }

  lemma StepFromCarried(s: Vec, t: Token, g: Vec, w: Vec, u: real)
    requires |s| == |t.k| == |t.alpha| == |g| == |w| && NonZero(g)
    requires Mul(t.alpha, s) == Mul(g, w) && u == t.v - Dot(t.k, Mul(g, w))
    ensures StepState(s, t) == Mul(g, Add(w, Scale(Times(t.beta, u), Div(t.k, g))))
  {
    WriteStep(g, w, t.beta, u, t.k);
  }

  // The output the chunk reads at position i is the product of q with the state after it.
  lemma ChunkOutputExact(d: nat, chunk: seq<Token>, s: Vec, bu: seq<real>, i: nat)
    requires Gated(d, chunk) && |s| == d && |bu| == |chunk| && i < |chunk|
    ensures ChunkOutput(d, chunk, s, bu, i)
            == Dot(chunk[i].q, Mul(Gate(d, chunk, i + 1), Carried(d, chunk, s, bu, i + 1)))
  {
    var qb := QBar(d, chunk, i);
    DotMul(chunk[i].q, Gate(d, chunk, i + 1), Carried(d, chunk, s, bu, i + 1));
    DotCarried(qb, d, chunk, s, bu, i + 1);
    var f := IntraTerm(d, chunk, bu, i);
    var g := (l: nat) => if l < i + 1 then Times(bu[l], Dot(qb, KHat(d, chunk, l))) else 0.0;
    forall l: nat | l < |chunk|
      ensures f(l) == if l < i + 1 then g(l) else 0.0
    {
      if l <= i {
        TimesAssoc(1.0, bu[l], Dot(qb, KHat(d, chunk, l)));
      }
    }
    SumToMasked(|chunk|, i + 1, f, g);
  }

  lemma GatedShaped(d: nat, chunk: seq<Token>)
    requires Gated(d, chunk)
    ensures Shaped(d, chunk)
  {}

  ghost predicate OutputsAre(d: nat, chunk: seq<Token>, s: Vec, bu: seq<real>, outs: seq<real>)
    requires Gated(d, chunk) && |s| == d && |bu| == |chunk|
  {
    |outs| == |chunk| && forall i | 0 <= i < |chunk| :: outs[i] == ChunkOutput(d, chunk, s, bu, i)
  }

  // After any number of positions of the chunk, state and outputs are the recurrence's.
  lemma {:induction false} ChunkPrefix(d: nat, chunk: seq<Token>, s: Vec, u: seq<real>, outs: seq<real>, n: nat)
    requires Gated(d, chunk) && |s| == d && Solves(d, chunk, s, u) && n <= |chunk|
    requires OutputsAre(d, chunk, s, Weighted(chunk, u), outs)
    ensures Shaped(d, chunk[..n])
    ensures States(d, s, chunk[..n]) == Mul(Gate(d, chunk, n), Carried(d, chunk, s, Weighted(chunk, u), n))
    ensures Outputs(d, s, chunk[..n]) == outs[..n]
    decreases n
  {
    GatedShaped(d, chunk);
    if n == 0 {
      CarriedStart(d, chunk, s, Weighted(chunk, u));
      assert chunk[..0] == [] && outs[..0] == [];
    } else {
      ChunkPrefix(d, chunk, s, u, outs, n - 1);
      ChunkPrefixNext(d, chunk, s, u, n - 1);
      OutputAt(d, chunk, s, Weighted(chunk, u), outs, n - 1);
    }
  }

  lemma OutputAt(d: nat, chunk: seq<Token>, s: Vec, bu: seq<real>, outs: seq<real>, n: nat)
    requires Gated(d, chunk) && |s| == d && |bu| == |chunk| && n < |chunk|
    requires OutputsAre(d, chunk, s, bu, outs)
    ensures outs[..n + 1] == outs[..n] + [ChunkOutput(d, chunk, s, bu, n)]
  {
    assert outs[n] == ChunkOutput(d, chunk, s, bu, n);
  }

  lemma ChunkPrefixNext(d: nat, chunk: seq<Token>, s: Vec, u: seq<real>, n: nat)
    requires Gated(d, chunk) && |s| == d && Solves(d, chunk, s, u) && n < |chunk|
    requires Shaped(d, chunk[..n])
    requires States(d, s, chunk[..n]) == Mul(Gate(d, chunk, n), Carried(d, chunk, s, Weighted(chunk, u), n))
    ensures Shaped(d, chunk[..n + 1])
    ensures States(d, s, chunk[..n + 1]) == Mul(Gate(d, chunk, n + 1), Carried(d, chunk, s, Weighted(chunk, u), n + 1))
    ensures Outputs(d, s, chunk[..n + 1]) ==
            Outputs(d, s, chunk[..n]) + [ChunkOutput(d, chunk, s, Weighted(chunk, u), n)]
  {
    GatedShaped(d, chunk);
    RecurrenceNext(d, s, chunk, n);
    ChunkStep(d, chunk, s, u, n);
    ChunkOutputExact(d, chunk, s, Weighted(chunk, u), n);
  }

  lemma CarriedStart(d: nat, chunk: seq<Token>, s: Vec, bu: seq<real>)
    requires Gated(d, chunk) && |s| == d && |bu| == |chunk|
    ensures Mul(Gate(d, chunk, 0), Carried(d, chunk, s, bu, 0)) == s
  {
    assert forall i | 0 <= i < d :: Carried(d, chunk, s, bu, 0)[i] == s[i];
  }

  // One iteration of the chunk loop: solve, output, carry.
  method RunChunk(d: nat, chunk: seq<Token>, s: Vec) returns (outs: seq<real>, next: Vec)
    requires Gated(d, chunk) && |s| == d
    ensures Shaped(d, chunk)
    ensures outs == Outputs(d, s, chunk) && next == States(d, s, chunk)
  {
    var m := System(d, chunk);
    var rhs := Rhs(d, chunk, s);
    var u := SolveTriangular(m, rhs);
    var bu := Weighted(chunk, u);
    outs := seq(|chunk|, i requires 0 <= i < |chunk| => ChunkOutput(d, chunk, s, bu, i));
    next := Mul(Gate(d, chunk, |chunk|), Add(s, WeightedSum(d, bu, KHats(d, chunk), |chunk|)));
    ChunkPrefix(d, chunk, s, u, outs, |chunk|);
    assert chunk[..|chunk|] == chunk && outs[..|chunk|] == outs;
  }

  // ----- Padding and the chunk loop

  function PadToken(d: nat): Token {
    Token(Fill(d, 0.0), Fill(d, 0.0), 0.0, Fill(d, 1.0), 0.0)
  }

  // (-T) % C padded positions: no decay, no write.
  function PadChunks(d: nat, tokens: seq<Token>, c: nat): (r: seq<Token>)
    requires c >= 1
  {
    tokens + Padding(d, (-|tokens|) % c)
  }

  function Padding(d: nat, n: nat): (r: seq<Token>)
    ensures |r| == n && forall i | 0 <= i < n :: r[i] == PadToken(d)
  {
    seq(n, i => PadToken(d))
  }

  ghost predicate DecayAtLeast(tokens: seq<Token>, eps: real) {
    forall i | 0 <= i < |tokens| :: forall a | a in tokens[i].alpha :: a >= eps
  }

  lemma ClampShaped(d: nat, tokens: seq<Token>, eps: real)
    requires Shaped(d, tokens) && eps > 0.0
    ensures Shaped(d, ClampAll(tokens, eps)) && Gated(d, ClampAll(tokens, eps))
  {
    assert forall i | 0 <= i < |tokens| :: tokens[i] in tokens;
  }

  lemma ClampNothing(tokens: seq<Token>, eps: real)
    requires DecayAtLeast(tokens, eps)
    ensures ClampAll(tokens, eps) == tokens
  {
    forall i | 0 <= i < |tokens|
      ensures ClampToken(tokens[i], eps) == tokens[i]
    {
      assert forall c | 0 <= c < |tokens[i].alpha| :: tokens[i].alpha[c] in tokens[i].alpha;
      assert Clamp(tokens[i].alpha, eps) == tokens[i].alpha;
    }
  }

  lemma PadStep(d: nat, s: Vec, eps: real)
    requires |s| == d
    ensures StepState(s, ClampToken(PadToken(d), eps)) == Scale(PadDecay(eps), s)
  {
    var t := ClampToken(PadToken(d), eps);
    var decayed := Mul(t.alpha, s);
    DotZero(t.k, decayed);
    assert Scale(t.beta, Scale(t.v - Dot(t.k, decayed), t.k)) == Fill(d, 0.0);
    assert StepState(s, t) == Scale(PadDecay(eps), s);
  }

  // The clamped decay of one padded position.
  function PadDecay(eps: real): real {
    if 1.0 < eps then eps else 1.0
  }

  function Power(b: real, n: nat): real {
    if n == 0 then 1.0 else Times(b, Power(b, n - 1))
  }

  // The decay of the (-T) % C padded positions together.
  function PaddedDecay(t: int, c: nat, eps: real): real
    requires c >= 1
  {
    Power(PadDecay(eps), (-t) % c)
  }

  lemma ScaleTwice(a: real, b: real, x: Vec)
    ensures Scale(a, Scale(b, x)) == Scale(Times(a, b), x)
  {
    forall i | 0 <= i < |x|
      ensures Scale(a, Scale(b, x))[i] == Scale(Times(a, b), x)[i]
    {
      TimesAssoc(a, b, x[i]);
    }
  }

  // Padded positions write nothing; they only decay the state.
  lemma {:induction false} PaddingDecays(d: nat, s: Vec, n: nat, eps: real)
    requires |s| == d
    ensures Shaped(d, ClampAll(Padding(d, n), eps))
    ensures States(d, s, ClampAll(Padding(d, n), eps)) == Scale(Power(PadDecay(eps), n), s)
  {
    if n > 0 {
      var rest, t := ClampAll(Padding(d, n - 1), eps), ClampToken(PadToken(d), eps);
      PaddingDecays(d, s, n - 1, eps);
      assert ClampAll(Padding(d, n), eps) == rest + [t];
      ShapedConcat(d, rest, [t]);
      RecurrenceSnoc(d, s, rest, t);
      PadStep(d, States(d, s, rest), eps);
      ScaleTwice(PadDecay(eps), Power(PadDecay(eps), n - 1), s);
    }
  }

  lemma {:induction false} PowerOfOne(n: nat)
    ensures Power(1.0, n) == 1.0
  {
    if n > 0 {
      PowerOfOne(n - 1);
    }
  }

  // For eps at most 1, and without padding, padded positions leave the state alone.
  lemma NoPaddedDecay(d: nat, s: Vec, t: int, c: nat, eps: real)
    requires |s| == d && c >= 1
    ensures eps <= 1.0 || t % c == 0 ==> Scale(PaddedDecay(t, c, eps), s) == s
  {
    if eps <= 1.0 {
      PowerOfOne((-t) % c);
    } else if t % c == 0 {
      NoPadding(t, c);
    }
  }

  lemma NoPadding(t: int, c: nat)
    requires c >= 1
    ensures t % c == 0 <==> (-t) % c == 0
  {
    var q, p := t / c, (-t) / c;
    if t % c == 0 {
      MultipleMod(c, -q);
      assert -t == c * (-q);
    }
    if (-t) % c == 0 {
      MultipleMod(c, -p);
      assert t == c * (-p);
    }
  }

  // The padded, clamped run: once the padding's outputs are cut off they are those of the clamped
  // recurrence, and the padding has only decayed its state.
  lemma PaddedRun(d: nat, s: Vec, tokens: seq<Token>, c: nat, eps: real)
    requires |s| == d && Shaped(d, tokens) && c >= 1 && 0.0 < eps
    ensures Shaped(d, ClampAll(PadChunks(d, tokens, c), eps)) && Shaped(d, ClampAll(tokens, eps))
    ensures Outputs(d, s, ClampAll(PadChunks(d, tokens, c), eps))[..|tokens|] == Outputs(d, s, ClampAll(tokens, eps))
    ensures States(d, s, ClampAll(PadChunks(d, tokens, c), eps)) ==
            Scale(PaddedDecay(|tokens|, c, eps), States(d, s, ClampAll(tokens, eps)))
  {
    var n := (-|tokens|) % c;
    var clamped, padding := ClampAll(tokens, eps), ClampAll(Padding(d, n), eps);
    ClampShaped(d, tokens, eps);
    assert ClampAll(PadChunks(d, tokens, c), eps) == clamped + padding;
    PaddingDecays(d, States(d, s, clamped), n, eps);
    RecurrenceConcat(d, s, clamped, padding);
  }

  lemma MulOrder(c: int, x: int)
    requires c >= 1
    ensures x >= 1 ==> c * x >= c
    ensures x <= 0 ==> c * x <= 0
  {}

  lemma MultipleMod(c: int, q: int)
    requires c >= 1
    ensures (c * q) % c == 0
  {
    var p, r := (c * q) / c, (c * q) % c;
    assert c * (q - p) == r;
    MulOrder(c, q - p);
  }

  lemma PadLength(t: int, c: int)
    requires c >= 1
    ensures (t + (-t) % c) % c == 0
  {
    var q := (-t) / c;
    assert t + (-t) % c == c * (-q);
    MultipleMod(c, -q);
  }

  lemma PadShaped(d: nat, tokens: seq<Token>, c: nat)
    requires Shaped(d, tokens) && c >= 1
    ensures Shaped(d, PadChunks(d, tokens, c)) && |PadChunks(d, tokens, c)| % c == 0
  {
    PadLength(|tokens|, c);
    ShapedConcat(d, tokens, Padding(d, (-|tokens|) % c));
  }

  lemma GatedSlice(d: nat, tokens: seq<Token>, lo: nat, hi: nat)
    requires Gated(d, tokens) && lo <= hi <= |tokens|
    ensures Gated(d, tokens[lo..hi]) && Shaped(d, tokens[lo..hi])
  {
    var slice := tokens[lo..hi];
    assert forall i | 0 <= i < |slice| :: slice[i] == tokens[lo + i];
    GatedShaped(d, slice);
  }

  lemma SlicePrefix<T>(s: seq<T>, pos: nat, c: nat)
    requires pos + c <= |s|
    ensures s[0..pos] == s[..pos] && s[..pos + c] == s[..pos] + s[pos..pos + c]
  {
  }

  lemma SliceConcat(d: nat, s: Vec, tokens: seq<Token>, pos: nat, c: nat)
    requires |s| == d && Gated(d, tokens) && pos + c <= |tokens|
    ensures Shaped(d, tokens[..pos]) && Shaped(d, tokens[pos..pos + c]) && Shaped(d, tokens[..pos + c])
    ensures Gated(d, tokens[pos..pos + c])
    ensures States(d, s, tokens[..pos + c]) == States(d, States(d, s, tokens[..pos]), tokens[pos..pos + c])
    ensures Outputs(d, s, tokens[..pos + c])
         == Outputs(d, s, tokens[..pos]) + Outputs(d, States(d, s, tokens[..pos]), tokens[pos..pos + c])
  {
    GatedSlice(d, tokens, 0, pos);
    GatedSlice(d, tokens, pos, pos + c);
    SlicePrefix(tokens, pos, c);
    RecurrenceConcat(d, s, tokens[..pos], tokens[pos..pos + c]);
  }

  // The recurrence over the tokens ends in the state with the outputs.
  ghost predicate Ran(d: nat, start: Vec, tokens: seq<Token>, outs: seq<real>, s: Vec) {
    |start| == d && Shaped(d, tokens) && outs == Outputs(d, start, tokens) && s == States(d, start, tokens)
  }

  lemma RanOn(d: nat, start: Vec, tokens: seq<Token>, pos: nat, next: nat, outs: seq<real>, s: Vec, more: seq<real>, s': Vec)
    requires Gated(d, tokens) && pos <= next <= |tokens| && Ran(d, start, tokens[..pos], outs, s)
    requires |s| == d && Ran(d, s, tokens[pos..next], more, s')
    ensures Ran(d, start, tokens[..next], outs + more, s')
  {
    SliceConcat(d, start, tokens, pos, next - pos);
  }

  // The sequential loop over the chunks of a padded sequence.
  method RunChunks(d: nat, padded: seq<Token>, start: Vec, c: nat) returns (outs: seq<real>, s: Vec)
    requires Gated(d, padded) && |start| == d && c >= 1 && |padded| % c == 0
    ensures Shaped(d, padded) && outs == Outputs(d, start, padded) && s == States(d, start, padded)
  {
    s := start;
    outs := [];
    var pos := 0;
    while pos < |padded|
      invariant pos <= |padded| && pos % c == 0 && |s| == d
      invariant Ran(d, start, padded[..pos], outs, s)
    {
      var next := pos + c;
      NextMultiple(pos, next, |padded|, c);
      GatedSlice(d, padded, pos, next);
      var chunkOuts, s' := RunChunk(d, padded[pos..next], s);
      RanOn(d, start, padded, pos, next, outs, s, chunkOuts, s');
      outs, s, pos := outs + chunkOuts, s', next;
    }
    GatedShaped(d, padded);
    assert padded[..|padded|] == padded;
  }

  // The chunk-parallel form: it reads the outputs of the recurrence over the clamped decay, and its
  // final state has also been through the clamped decay of the padding.
  method KdaChunk(d: nat, tokens: seq<Token>, s0: Option<Vec>, chunkSize: nat, eps: real)
    returns (out: seq<real>, s: Vec)
    requires Shaped(d, tokens) && (s0.Some? ==> |s0.value| == d)
    requires |tokens| >= 1 && chunkSize >= 1 && eps > 0.0
    ensures Shaped(d, ClampAll(tokens, eps))
    ensures var start := if s0.Some? then s0.value else Fill(d, 0.0);
            var final := States(d, start, ClampAll(tokens, eps));
            && out == Outputs(d, start, ClampAll(tokens, eps)) && s == Scale(PaddedDecay(|tokens|, chunkSize, eps), final)
            && (eps <= 1.0 || |tokens| % chunkSize == 0 ==> s == final)
    ensures DecayAtLeast(tokens, eps) ==>
              var start := if s0.Some? then s0.value else Fill(d, 0.0);
              && out == Outputs(d, start, tokens)
              && (eps <= 1.0 || |tokens| % chunkSize == 0 ==> s == States(d, start, tokens))
  {
    var c := chunkSize;
    var padded := ClampAll(PadChunks(d, tokens, c), eps);
    PadShaped(d, tokens, c);
    ClampShaped(d, PadChunks(d, tokens, c), eps);
    var start := match s0 case None => Fill(d, 0.0) case Some(x) => x;
    var outs: seq<real>;
    outs, s := RunChunks(d, padded, start, c);
    out := outs[..|tokens|];
    PaddedRun(d, start, tokens, c, eps);
    NoPaddedDecay(d, States(d, start, ClampAll(tokens, eps)), |tokens|, c, eps);
    if DecayAtLeast(tokens, eps) {
      ClampNothing(tokens, eps);
    }
  }

  lemma NextMultiple(pos: int, next: int, n: int, c: int)
    requires c >= 1 && pos < n && pos % c == 0 && n % c == 0 && next == pos + c
    ensures next <= n && next % c == 0
  {
    var p, q := pos / c, n / c;
    assert n - pos == c * (q - p);
    MulOrder(c, q - p);
    assert next == c * (p + 1);
    MultipleMod(c, p + 1);
  }

  // ----- When the two forms agree

  // The state the chunk-parallel form ends in.
  function ChunkState(d: nat, s: Vec, tokens: seq<Token>, c: nat, eps: real): Vec
    requires |s| == d && Shaped(d, ClampAll(tokens, eps)) && c >= 1
  {
    Scale(PaddedDecay(|tokens|, c, eps), States(d, s, ClampAll(tokens, eps)))
  }

  ghost predicate FormsAgree(d: nat, s: Vec, tokens: seq<Token>, c: nat, eps: real)
    requires |s| == d && Shaped(d, tokens) && Shaped(d, ClampAll(tokens, eps)) && c >= 1
  {
    && Outputs(d, s, ClampAll(tokens, eps)) == Outputs(d, s, tokens)
    && ChunkState(d, s, tokens, c, eps) == States(d, s, tokens)
  }

  ghost predicate HasDecays(d: nat, tokens: seq<Token>, decays: seq<Vec>, eps: real) {
    && Shaped(d, tokens) && Shaped(d, ClampAll(tokens, eps))
    && |tokens| == |decays| && forall i | 0 <= i < |decays| :: tokens[i].alpha == decays[i]
  }

  ghost predicate DecaysAtLeast(d: nat, decays: seq<Vec>, eps: real) {
    forall i | 0 <= i < |decays| :: |decays[i]| == d && forall j | 0 <= j < d :: decays[i][j] >= eps
  }

  function Unit(d: nat, j: nat): (r: Vec)
    ensures |r| == d && forall i | 0 <= i < d :: r[i] == if i == j then 1.0 else 0.0
  {
    seq(d, i => if i == j then 1.0 else 0.0)
  }

  // Tokens that write nothing and read channel j.
  function Probe(d: nat, decays: seq<Vec>, j: nat): (r: seq<Token>)
    ensures |r| == |decays| && forall i | 0 <= i < |r| :: r[i] == Token(Unit(d, j), Fill(d, 0.0), 0.0, decays[i], 0.0)
  {
    seq(|decays|, i requires 0 <= i < |decays| => Token(Unit(d, j), Fill(d, 0.0), 0.0, decays[i], 0.0))
  }

  // The decay of channel j over the first n positions.
  function ChannelDecay(decays: seq<Vec>, j: nat, n: nat): real
    requires n <= |decays| && forall i | 0 <= i < n :: j < |decays[i]|
  {
    if n == 0 then 1.0 else Times(decays[n - 1][j], ChannelDecay(decays, j, n - 1))
  }

  lemma {:induction false} DotUnit(d: nat, j: nat, x: Vec)
    requires |x| == d && j < d
    ensures Dot(Unit(d, j), x) == x[j]
  {
    if j == 0 {
      DotZero(Unit(d, j)[1..], x[1..]);
    } else {
      DotUnit(d - 1, j - 1, x[1..]);
      assert Unit(d, j)[1..] == Unit(d - 1, j - 1);
    }
  }

  ghost predicate DecayVectors(d: nat, decays: seq<Vec>) {
    forall i | 0 <= i < |decays| :: |decays[i]| == d
  }

  lemma ProbeStep(d: nat, s: Vec, alpha: Vec, j: nat)
    requires |s| == |alpha| == d && j < d
    ensures var t := Token(Unit(d, j), Fill(d, 0.0), 0.0, alpha, 0.0);
            StepState(s, t)[j] == Times(alpha[j], s[j]) && Dot(t.q, StepState(s, t)) == Times(alpha[j], s[j])
  {
    var t := Token(Unit(d, j), Fill(d, 0.0), 0.0, alpha, 0.0);
    DotZero(t.k, Mul(t.alpha, s));
    assert StepState(s, t)[j] == Mul(t.alpha, s)[j];
    DotUnit(d, j, StepState(s, t));
  }

  // What a probe reads: the decay of its channel so far.
  lemma {:induction false} ProbeReads(d: nat, decays: seq<Vec>, j: nat, n: nat)
    requires DecayVectors(d, decays) && j < d && n <= |decays|
    ensures Shaped(d, Probe(d, decays[..n], j))
    ensures States(d, Unit(d, j), Probe(d, decays[..n], j))[j] == ChannelDecay(decays, j, n)
    ensures forall i | 0 <= i < n :: Outputs(d, Unit(d, j), Probe(d, decays[..n], j))[i] == ChannelDecay(decays, j, i + 1)
  {
    if n > 0 {
      ProbeReads(d, decays, j, n - 1);
      var rest, t := Probe(d, decays[..n - 1], j), Token(Unit(d, j), Fill(d, 0.0), 0.0, decays[n - 1], 0.0);
      assert Probe(d, decays[..n], j) == rest + [t];
      ShapedConcat(d, rest, [t]);
      RecurrenceSnoc(d, Unit(d, j), rest, t);
      ProbeStep(d, States(d, Unit(d, j), rest), decays[n - 1], j);
    }
  }

  function ClampDecays(decays: seq<Vec>, eps: real): (r: seq<Vec>)
    ensures |r| == |decays| && forall i | 0 <= i < |r| :: r[i] == Clamp(decays[i], eps)
  {
    seq(|decays|, i requires 0 <= i < |decays| => Clamp(decays[i], eps))
  }

  lemma ProbeFacts(d: nat, decays: seq<Vec>, j: nat, eps: real)
    requires DecayVectors(d, decays) && j < d
    ensures HasDecays(d, Probe(d, decays, j), decays, eps)
    ensures ClampAll(Probe(d, decays, j), eps) == Probe(d, ClampDecays(decays, eps), j)
    ensures DecayVectors(d, ClampDecays(decays, eps))
  {
  }

  // Before the first clamped position of a channel its decay is positive and the same in both forms.
  lemma {:induction false} UnclampedSoFar(d: nat, decays: seq<Vec>, j: nat, n: nat, eps: real)
    requires DecayVectors(d, decays) && j < d && n <= |decays| && eps > 0.0
    requires forall i | 0 <= i < n :: decays[i][j] >= eps
    ensures ChannelDecay(ClampDecays(decays, eps), j, n) == ChannelDecay(decays, j, n) > 0.0
  {
    if n > 0 {
      UnclampedSoFar(d, decays, j, n - 1, eps);
      var a, b := decays[n - 1][j], ChannelDecay(decays, j, n - 1);
      assert a * b > 0.0;
    }
  }

  // The first position at which channel j is clamped, if any.
  lemma {:induction false} FirstClamped(decays: seq<Vec>, j: nat, n: nat, eps: real) returns (first: nat)
    requires n <= |decays| && forall i | 0 <= i < n :: j < |decays[i]|
    ensures first <= n && (forall i | 0 <= i < first :: decays[i][j] >= eps) && (first < n ==> decays[first][j] < eps)
  {
    if n == 0 {
      first := 0;
    } else {
      first := FirstClamped(decays, j, n - 1, eps);
      if first == n - 1 && decays[first][j] >= eps {
        first := n;
      }
    }
  }

  lemma ProbeReadsAt(d: nat, decays: seq<Vec>, j: nat, i: nat)
    requires DecayVectors(d, decays) && j < d && i < |decays|
    ensures Shaped(d, Probe(d, decays, j))
    ensures Outputs(d, Unit(d, j), Probe(d, decays, j))[i] == ChannelDecay(decays, j, i + 1)
  {
    assert decays[..|decays|] == decays;
    ProbeReads(d, decays, j, |decays|);
  }

  // A probe of a clamped channel reads different outputs from the two forms.
  lemma ProbeTellsClamped(d: nat, decays: seq<Vec>, j: nat, i: nat, eps: real)
    requires DecayVectors(d, decays) && j < d && eps > 0.0 && i < |decays| && decays[i][j] < eps
    ensures HasDecays(d, Probe(d, decays, j), decays, eps)
    ensures Outputs(d, Unit(d, j), ClampAll(Probe(d, decays, j), eps)) != Outputs(d, Unit(d, j), Probe(d, decays, j))
  {
    var first := FirstClamped(decays, j, |decays|, eps);
    ProbeFacts(d, decays, j, eps);
    FirstDiffers(d, decays, j, first, eps);
    ProbeReadsAt(d, decays, j, first);
    ProbeReadsAt(d, ClampDecays(decays, eps), j, first);
  }

  lemma FirstDiffers(d: nat, decays: seq<Vec>, j: nat, first: nat, eps: real)
    requires DecayVectors(d, decays) && j < d && eps > 0.0 && first < |decays| && decays[first][j] < eps
    requires forall i | 0 <= i < first :: decays[i][j] >= eps
    ensures ChannelDecay(ClampDecays(decays, eps), j, first + 1) != ChannelDecay(decays, j, first + 1)
  {
    UnclampedSoFar(d, decays, j, first, eps);
    StrictTimes(decays[first][j], eps, ChannelDecay(decays, j, first));
  }

  lemma StrictTimes(a: real, b: real, p: real)
    requires a < b && p > 0.0
    ensures Times(a, p) < Times(b, p)
  {
    assert (b - a) * p > 0.0;
  }

  lemma {:induction false} PowerAbove(b: real, n: nat)
    requires b > 1.0 && n >= 1
    ensures Power(b, n) > 1.0
  {
    if n > 1 {
      PowerAbove(b, n - 1);
      StrictTimes(1.0, b, Power(b, n - 1));
    }
  }

  // A probe tells padding that decays the state.
  lemma ProbeTellsPadding(d: nat, decays: seq<Vec>, c: nat, eps: real)
    requires DecaysAtLeast(d, decays, eps) && d >= 1 && c >= 1 && eps > 1.0 && |decays| % c != 0
    ensures HasDecays(d, Probe(d, decays, 0), decays, eps)
    ensures ChunkState(d, Unit(d, 0), Probe(d, decays, 0), c, eps) != States(d, Unit(d, 0), Probe(d, decays, 0))
  {
    var n := |decays|;
    ProbeFacts(d, decays, 0, eps);
    ClampNothing(Probe(d, decays, 0), eps);
    ProbeEndsPositive(d, decays, eps);
    NoPadding(n, c);
    PowerAbove(eps, (-n) % c);
    StrictTimes(1.0, Power(eps, (-n) % c), States(d, Unit(d, 0), Probe(d, decays, 0))[0]);
  }

  lemma ProbeEndsPositive(d: nat, decays: seq<Vec>, eps: real)
    requires DecaysAtLeast(d, decays, eps) && d >= 1 && eps > 0.0
    ensures Shaped(d, Probe(d, decays, 0)) && States(d, Unit(d, 0), Probe(d, decays, 0))[0] > 0.0
  {
    UnclampedSoFar(d, decays, 0, |decays|, eps);
    assert decays[..|decays|] == decays;
    ProbeReads(d, decays, 0, |decays|);
  }

  lemma AgreeWhenUnclamped(d: nat, s: Vec, tokens: seq<Token>, decays: seq<Vec>, c: nat, eps: real)
    requires |s| == d && HasDecays(d, tokens, decays, eps) && DecaysAtLeast(d, decays, eps) && c >= 1
    requires eps <= 1.0 || |decays| % c == 0 || d == 0
    ensures FormsAgree(d, s, tokens, c, eps)
  {
    ClampNothing(tokens, eps);
    if d == 0 {
      assert ChunkState(d, s, tokens, c, eps) == [] && States(d, s, tokens) == [];
    } else {
      NoPaddedDecay(d, States(d, s, tokens), |tokens|, c, eps);
    }
  }

  // On every query, key, value, rate and start state with these decays.
  ghost predicate AlwaysAgree(d: nat, decays: seq<Vec>, c: nat, eps: real)
    requires c >= 1
  {
    forall tokens, s: Vec | HasDecays(d, tokens, decays, eps) && |s| == d :: FormsAgree(d, s, tokens, c, eps)
  }

  lemma ClampedDisagrees(d: nat, decays: seq<Vec>, c: nat, eps: real, i: nat, j: nat)
    requires DecayVectors(d, decays) && c >= 1 && eps > 0.0 && i < |decays| && j < d && decays[i][j] < eps
    ensures !AlwaysAgree(d, decays, c, eps)
  {
    ProbeTellsClamped(d, decays, j, i, eps);
    assert !FormsAgree(d, Unit(d, j), Probe(d, decays, j), c, eps);
  }

  lemma PaddedDisagrees(d: nat, decays: seq<Vec>, c: nat, eps: real)
    requires DecaysAtLeast(d, decays, eps) && c >= 1 && eps > 1.0 && |decays| % c != 0 && d >= 1
    ensures !AlwaysAgree(d, decays, c, eps)
  {
    ProbeTellsPadding(d, decays, c, eps);
    assert !FormsAgree(d, Unit(d, 0), Probe(d, decays, 0), c, eps);
  }

  // For given decays the two forms always agree exactly when no decay is clamped and no padding
  // decays the state.
  lemma FormsAgreeIff(d: nat, decays: seq<Vec>, c: nat, eps: real)
    requires DecayVectors(d, decays) && c >= 1 && eps > 0.0
    ensures AlwaysAgree(d, decays, c, eps) <==>
            DecaysAtLeast(d, decays, eps) && (eps <= 1.0 || |decays| % c == 0 || d == 0)
  {
    if AlwaysAgree(d, decays, c, eps) {
      forall i, j | 0 <= i < |decays| && 0 <= j < d
        ensures decays[i][j] >= eps
      {
        if decays[i][j] < eps {
          ClampedDisagrees(d, decays, c, eps, i, j);
        }
      }
      if eps > 1.0 && |decays| % c != 0 && d >= 1 {
        PaddedDisagrees(d, decays, c, eps);
      }
    }
    if DecaysAtLeast(d, decays, eps) && (eps <= 1.0 || |decays| % c == 0 || d == 0) {
      forall tokens, s: Vec | HasDecays(d, tokens, decays, eps) && |s| == d
        ensures FormsAgree(d, s, tokens, c, eps)
      {
        AgreeWhenUnclamped(d, s, tokens, decays, c, eps);
      }
    }
  }
}
