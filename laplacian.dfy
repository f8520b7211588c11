/** The discrete second derivative with reflecting (Neumann) boundaries used as the
    diffusion term of the spatial relaxation equation (_laplacian_neumann in
    simulate.py). */
module NeumannLaplacian {
  import opened RealMath

  /** The central second difference at interior point i. */
  function Central(g: seq<real>, dr: real, i: int): real
    requires 1 <= i < |g| - 1 && dr != 0.0
  {
    OverSquare(g[i + 1] - 2.0 * g[i] + g[i - 1], dr)
  }

  /** The doubled one-sided difference at the left edge, towards G[1]. */
  function LeftEdge(g: seq<real>, dr: real): real
    requires |g| >= 2 && dr != 0.0
  {
    OverSquare(g[1] - g[0], dr) * 2.0
  }

  /** The doubled one-sided difference at the right edge, towards G[-2]. */
  function RightEdge(g: seq<real>, dr: real): real
    requires |g| >= 2 && dr != 0.0
  {
    OverSquare(g[|g| - 2] - g[|g| - 1], dr) * 2.0
  }

  /** The interior of the stencil: entry k is the central second difference
      around grid point k + 1, i.e. (G[2:] - 2 G[1:-1] + G[:-2]) / dr**2. */
  function SecondDifferences(g: seq<real>, dr: real): (d: seq<real>)
    requires |g| >= 2 && dr != 0.0
    ensures |d| == |g| - 2
  {
    seq(|g| - 2, k requires 0 <= k < |g| - 2 => Central(g, dr, k + 1))
  }

  /** The Neumann Laplacian of the field g on a grid of spacing dr: the interior
      second differences, and at either end twice the one-sided difference towards
      the single interior neighbour. */
  function Laplacian(g: seq<real>, dr: real): (l: seq<real>)
    requires |g| >= 2 && dr != 0.0
    ensures |l| == |g|
  {
    [LeftEdge(g, dr)] + SecondDifferences(g, dr) + [RightEdge(g, dr)]
  }

  /** The source indexes G[1] and G[-2]; with fewer than two points that raises
      IndexError. */
  function TryLaplacian(g: seq<real>, dr: real): (r: Result<seq<real>>)
    requires |g| >= 2 ==> dr != 0.0
    ensures r.Err? <==> |g| < 2
    ensures r.Err? ==> r.error == IndexError
    ensures r.Ok? ==> |r.value| == |g| && r.value == Laplacian(g, dr)
  {
    if |g| < 2 then Err(IndexError) else Ok(Laplacian(g, dr))
  }

  /** Entry i of the Laplacian, by position. */
  lemma LaplacianAt(g: seq<real>, dr: real, i: int)
    requires |g| >= 2 && dr != 0.0 && 0 <= i < |g|
    ensures i == 0 ==> Laplacian(g, dr)[i] == LeftEdge(g, dr)
    ensures i == |g| - 1 ==> Laplacian(g, dr)[i] == RightEdge(g, dr)
    ensures 0 < i < |g| - 1 ==> Laplacian(g, dr)[i] == Central(g, dr, i)
  {
    if 0 < i < |g| - 1 {
      assert Laplacian(g, dr)[i] == SecondDifferences(g, dr)[i - 1];
    }
  }

  /** Entry by entry: the central difference inside, the doubled one-sided
      difference at both ends (OverSquare(x, dr) is x / dr**2). */
  lemma LaplacianStencil(g: seq<real>, dr: real)
    requires |g| >= 2 && dr != 0.0
    ensures var l := Laplacian(g, dr);
      && l[0] == 2.0 * OverSquare(g[1] - g[0], dr)
      && l[|g| - 1] == 2.0 * OverSquare(g[|g| - 2] - g[|g| - 1], dr)
      && forall i :: 1 <= i <= |g| - 2 ==> l[i] == OverSquare(g[i + 1] - 2.0 * g[i] + g[i - 1], dr)
  {
    var n := |g|;
    forall i | 1 <= i <= n - 2
      ensures Laplacian(g, dr)[i] == OverSquare(g[i + 1] - 2.0 * g[i] + g[i - 1], dr)
    {
      LaplacianAt(g, dr, i);
    }
    LaplacianAt(g, dr, 0);
    LaplacianAt(g, dr, n - 1);
  }

  /** np.zeros_like(G) filled by slice and index assignment. */
  method ComputeLaplacian(g: array<real>, dr: real) returns (l: array<real>)
    requires g.Length >= 2 && dr != 0.0
    ensures fresh(l)
    ensures l[..] == Laplacian(g[..], dr)
  {
    var n := g.Length;
    l := new real[n](_ => 0.0);
    var k := 1;
    while k < n - 1
      invariant 1 <= k <= n - 1
      invariant forall j :: 1 <= j < k ==> l[j] == Central(g[..], dr, j)
    {
      l[k] := (g[k + 1] - 2.0 * g[k] + g[k - 1]) / dr / dr;
      k := k + 1;
    }
    l[0] := (g[1] - g[0]) / dr / dr * 2.0;
    l[n - 1] := (g[n - 2] - g[n - 1]) / dr / dr * 2.0;
    forall j | 0 <= j < n ensures l[j] == Laplacian(g[..], dr)[j] {
      LaplacianAt(g[..], dr, j);
    }
  }

  /** A uniform field has no curvature anywhere, the edges included: the
      reflecting boundary creates no spurious flux. */
  lemma {:induction false} LaplacianOfConstant(n: nat, c: real, dr: real)
    requires n >= 2 && dr != 0.0
    ensures Laplacian(Fill(n, c), dr) == Fill(n, 0.0)
  {
    var g := Fill(n, c);
    OverSquareOfZero(dr);
    forall i | 0 <= i < n ensures Laplacian(g, dr)[i] == 0.0 {
      LaplacianAt(g, dr, i);
      if 0 < i < n - 1 {
        assert g[i + 1] - 2.0 * g[i] + g[i - 1] == 0.0;
      }
    }
  }

  /** a * x + b * y. */
  function Lin(a: real, x: real, b: real, y: real): real
  {
    a * x + b * y
  }

  /** a * f + b * h, elementwise. */
  function Combine(a: real, f: seq<real>, b: real, h: seq<real>): (r: seq<real>)
    requires |f| == |h|
    ensures |r| == |f|
  {
    seq(|f|, i requires 0 <= i < |f| => Lin(a, f[i], b, h[i]))
  }

  /** The Laplacian is a linear operator. */
  lemma {:induction false} LaplacianLinear(a: real, f: seq<real>, b: real, h: seq<real>, dr: real)
    requires |f| == |h| >= 2 && dr != 0.0
    ensures Laplacian(Combine(a, f, b, h), dr) == Combine(a, Laplacian(f, dr), b, Laplacian(h, dr))
  {
    var n := |f|;
    var g := Combine(a, f, b, h);
    var lhs, rhs := Laplacian(g, dr), Combine(a, Laplacian(f, dr), b, Laplacian(h, dr));
    forall i | 0 <= i < n ensures lhs[i] == rhs[i] {
      if i == 0 {
        LinearLeftEdge(a, f, b, h, dr);
      } else if i == n - 1 {
        LinearRightEdge(a, f, b, h, dr);
      } else {
        LinearInterior(a, f, b, h, dr, i);
      }
    }
  }

  lemma LinearLeftEdge(a: real, f: seq<real>, b: real, h: seq<real>, dr: real)
    requires |f| == |h| >= 2 && dr != 0.0
    ensures Laplacian(Combine(a, f, b, h), dr)[0] == Lin(a, Laplacian(f, dr)[0], b, Laplacian(h, dr)[0])
  {
    var g := Combine(a, f, b, h);
    LaplacianAt(g, dr, 0);
    LaplacianAt(f, dr, 0);
    LaplacianAt(h, dr, 0);
    EdgeLinear(a, b, f[1], f[0], h[1], h[0], g[1], g[0],
               Laplacian(f, dr)[0], Laplacian(h, dr)[0], Laplacian(g, dr)[0], dr);
  }

  lemma LinearRightEdge(a: real, f: seq<real>, b: real, h: seq<real>, dr: real)
    requires |f| == |h| >= 2 && dr != 0.0
    ensures var n := |f|;
      Laplacian(Combine(a, f, b, h), dr)[n - 1] == Lin(a, Laplacian(f, dr)[n - 1], b, Laplacian(h, dr)[n - 1])
  {
    var n := |f|;
    var g := Combine(a, f, b, h);
    LaplacianAt(g, dr, n - 1);
    LaplacianAt(f, dr, n - 1);
    LaplacianAt(h, dr, n - 1);
    EdgeLinear(a, b, f[n - 2], f[n - 1], h[n - 2], h[n - 1], g[n - 2], g[n - 1],
               Laplacian(f, dr)[n - 1], Laplacian(h, dr)[n - 1], Laplacian(g, dr)[n - 1], dr);
  }

  lemma LinearInterior(a: real, f: seq<real>, b: real, h: seq<real>, dr: real, i: int)
    requires |f| == |h| >= 2 && dr != 0.0 && 0 < i < |f| - 1
    ensures Laplacian(Combine(a, f, b, h), dr)[i] == Lin(a, Laplacian(f, dr)[i], b, Laplacian(h, dr)[i])
  {
    var g := Combine(a, f, b, h);
    LaplacianAt(g, dr, i);
    LaplacianAt(f, dr, i);
    LaplacianAt(h, dr, i);
    InteriorLinear(a, b, f[i + 1], f[i], f[i - 1], h[i + 1], h[i], h[i - 1], g[i + 1], g[i], g[i - 1],
                   Laplacian(f, dr)[i], Laplacian(h, dr)[i], Laplacian(g, dr)[i], dr);
  }

  /** One edge entry of the linearity proof, on plain numbers. */
  lemma EdgeLinear(a: real, b: real, fp: real, fq: real, hp: real, hq: real, gp: real, gq: real,
                   lf: real, lh: real, lg: real, dr: real)
    requires dr != 0.0
    requires gp == Lin(a, fp, b, hp) && gq == Lin(a, fq, b, hq)
    requires lf == OverSquare(fp - fq, dr) * 2.0 && lh == OverSquare(hp - hq, dr) * 2.0
    requires lg == OverSquare(gp - gq, dr) * 2.0
    ensures lg == Lin(a, lf, b, lh)
  {
    CombineDifference(a, fp, fq, b, hp, hq);
    OverSquareLinearAt(a, fp - fq, b, hp - hq, gp - gq, dr);
  }

  /** One interior entry of the linearity proof, on plain numbers. */
  lemma InteriorLinear(a: real, b: real, fp: real, fq: real, fr: real, hp: real, hq: real, hr: real,
                       gp: real, gq: real, gr: real, lf: real, lh: real, lg: real, dr: real)
    requires dr != 0.0
    requires gp == Lin(a, fp, b, hp) && gq == Lin(a, fq, b, hq) && gr == Lin(a, fr, b, hr)
    requires lf == OverSquare(fp - 2.0 * fq + fr, dr) && lh == OverSquare(hp - 2.0 * hq + hr, dr)
    requires lg == OverSquare(gp - 2.0 * gq + gr, dr)
    ensures lg == Lin(a, lf, b, lh)
  {
    var x, y := fp - 2.0 * fq + fr, hp - 2.0 * hq + hr;
    CombineSecondDifference(a, fp, fq, fr, b, hp, hq, hr, gp, gq, gr);
    OverSquareLinearAt(a, x, b, y, gp - 2.0 * gq + gr, dr);
  }

  lemma OverSquareLinearAt(a: real, x: real, b: real, y: real, z: real, dr: real)
    requires dr != 0.0 && z == a * x + b * y
    ensures OverSquare(z, dr) == a * OverSquare(x, dr) + b * OverSquare(y, dr)
  {
    OverSquareLinear(a, x, b, y, dr);
  }

  lemma CombineDifference(a: real, p: real, q: real, b: real, u: real, v: real)
    ensures (a * p + b * u) - (a * q + b * v) == a * (p - q) + b * (u - v)
  {
  }

  lemma CombineSecondDifference(a: real, p: real, q: real, r: real, b: real, u: real, v: real, w: real,
                                 gp: real, gq: real, gr: real)
    requires gp == Lin(a, p, b, u) && gq == Lin(a, q, b, v) && gr == Lin(a, r, b, w)
    ensures gp - 2.0 * gq + gr == a * (p - 2.0 * q + r) + b * (u - 2.0 * v + w)
  {
  }

  /** Sum of a sequence, accumulated from the end. */
  function Sum(s: seq<real>): real
  {
    if s == [] then 0.0 else Sum(s[..|s| - 1]) + s[|s| - 1]
  }

  /** The trapezoidal-rule total of a sampled field (end points weighted one half),
      the discrete integral over the closed interval. */
  function TrapezoidSum(s: seq<real>): real
    requires |s| >= 2
  {
    s[0] / 2.0 + Sum(s[1..|s| - 1]) + s[|s| - 1] / 2.0
  }

  /** The interior second differences telescope to the difference of the two end slopes. */
  lemma {:induction false} SecondDifferencesTelescope(g: seq<real>, dr: real)
    requires |g| >= 2 && dr != 0.0
    ensures Sum(SecondDifferences(g, dr)) == OverSquare((g[|g| - 1] - g[|g| - 2]) - (g[1] - g[0]), dr)
  {
    var n := |g|;
    if n == 2 {
      assert SecondDifferences(g, dr) == [];
      OverSquareOfZero(dr);
    } else {
      var p := g[..n - 1];
      var d := SecondDifferences(g, dr);
      SecondDifferencesTelescope(p, dr);
      assert d[..n - 3] == SecondDifferences(p, dr);
      assert d[n - 3] == OverSquare(g[n - 1] - 2.0 * g[n - 2] + g[n - 3], dr);
      assert Sum(d) == Sum(SecondDifferences(p, dr)) + d[n - 3];
      OverSquareAdd((g[n - 2] - g[n - 3]) - (g[1] - g[0]), g[n - 1] - 2.0 * g[n - 2] + g[n - 3], dr);
    }
  }

  /** Neumann boundaries conserve the field: the trapezoidal integral of its
      Laplacian is zero, so diffusion neither creates nor destroys G at the edges. */
  lemma ZeroNetFlux(g: seq<real>, dr: real)
    requires |g| >= 2 && dr != 0.0
    ensures TrapezoidSum(Laplacian(g, dr)) == 0.0
  {
    var n := |g|;
    var l := Laplacian(g, dr);
    assert l[1..n - 1] == SecondDifferences(g, dr);
    SecondDifferencesTelescope(g, dr);
    var left, right := g[1] - g[0], g[n - 2] - g[n - 1];
    var mid := (g[n - 1] - g[n - 2]) - (g[1] - g[0]);
    assert l[0] / 2.0 == OverSquare(left, dr);
    assert l[n - 1] / 2.0 == OverSquare(right, dr);
    OverSquareAdd(left, mid, dr);
    OverSquareAdd(left + mid, right, dr);
    assert left + mid + right == 0.0;
    OverSquareOfZero(dr);
  }
}
