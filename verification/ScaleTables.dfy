/** Tables of group scales: one scale for every groupN rows and groupK columns of an expert's weights, the
    tables of all experts stored one after the other. */
module ScaleTables {
  import opened Tables

  /** A group size of zero or less counts as one. */
  function Group(g: int): (r: nat)
    ensures r > 0
  {
    if g > 0 then g else 1
  }

  function CeilDiv(n: nat, d: nat): nat
    requires d > 0
  {
    (n + d - 1) / d
  }

  lemma CeilCovers(n: nat, d: nat)
    requires d > 0
    ensures n <= Area(CeilDiv(n, d), d)
  {
    var q := CeilDiv(n, d);
    assert n + d - 1 == q * d + (n + d - 1) % d;
  }

  lemma CeilAbove(n: nat, d: nat, j: nat)
    requires d > 0 && j < n
    ensures j / d < CeilDiv(n, d)
  {
    CeilCovers(n, d);
    Unflat(j, d, CeilDiv(n, d));
  }

  /** An expert_num x rows x columns block of weights with its groups, and the width of a scale in bytes. */
  datatype Grid = Grid(E: nat, N: nat, K: nat, groupN: int, groupK: int, width: nat)

  /** Scales per expert: nb * kb. */
  function PerExpert(g: Grid): nat {
    Area(CeilDiv(g.N, Group(g.groupN)), CeilDiv(g.K, Group(g.groupK)))
  }

  /** What the engine's constructor copies. */
  function TableBytes(g: Grid): nat {
    Area(Area(g.E, PerExpert(g)), g.width)
  }

  /** The scale of weight (n, k) of an expert, inside that expert's table. */
  function InExpert(g: Grid, n: nat, k: nat): nat {
    Flat(n / Group(g.groupN), k / Group(g.groupK), CeilDiv(g.K, Group(g.groupK)))
  }

  /** Its first byte in the whole buffer. */
  function ByteOffset(g: Grid, e: nat, n: nat, k: nat): nat {
    Flat(Flat(e, InExpert(g, n, k), PerExpert(g)), 0, g.width)
  }

  lemma InsideExpert(g: Grid, n: nat, k: nat)
    requires n < g.N && k < g.K
    ensures InExpert(g, n, k) < PerExpert(g)
  {
    CeilAbove(g.N, Group(g.groupN), n);
    CeilAbove(g.K, Group(g.groupK), k);
    hide CeilDiv, Area, Flat;
    FlatBound(n / Group(g.groupN), k / Group(g.groupK), CeilDiv(g.K, Group(g.groupK)), CeilDiv(g.N, Group(g.groupN)));
  }

  /** Every byte of every scale lies inside its own expert's part of the buffer. */
  lemma ScaleInside(g: Grid, e: nat, n: nat, k: nat, b: nat)
    requires e < g.E && n < g.N && k < g.K && b < g.width
    ensures Area(Area(e, PerExpert(g)), g.width) <= ByteOffset(g, e, n, k) + b < Area(Area(e + 1, PerExpert(g)), g.width)
    ensures ByteOffset(g, e, n, k) + b < TableBytes(g)
  {
    hide PerExpert, InExpert;
    InsideExpert(g, n, k);
    var c, p := InExpert(g, n, k), PerExpert(g);
    var x := Flat(e, c, p);
    assert ByteOffset(g, e, n, k) + b == Flat(x, b, g.width);
    assert Area(e, p) <= x;
    AreaAdd(e, 1, p);
    AreaLe(e + 1, g.E, p);
    AreaLe(Area(e, p), x, g.width);
    AreaLe(x + 1, Area(e + 1, p), g.width);
    AreaLe(Area(e + 1, p), Area(g.E, p), g.width);
    FlatBound(x, b, g.width, Area(e + 1, p));
  }

  /** Two weights share scale bytes exactly when they are in the same group of the same expert. */
  lemma ScalesApart(g: Grid, e: nat, n: nat, k: nat, b: nat, e': nat, n': nat, k': nat, b': nat)
    requires e < g.E && n < g.N && k < g.K && b < g.width
    requires e' < g.E && n' < g.N && k' < g.K && b' < g.width
    ensures ByteOffset(g, e, n, k) + b == ByteOffset(g, e', n', k') + b'
      <==> e == e' && n / Group(g.groupN) == n' / Group(g.groupN) && k / Group(g.groupK) == k' / Group(g.groupK) && b == b'
  {
    InsideExpert(g, n, k);
    InsideExpert(g, n', k');
    CeilAbove(g.K, Group(g.groupK), k);
    CeilAbove(g.K, Group(g.groupK), k');
    hide CeilDiv, PerExpert;
    var c, c', p := InExpert(g, n, k), InExpert(g, n', k'), PerExpert(g);
    FlatInjective(Flat(e, c, p), b, Flat(e', c', p), b', g.width);
    FlatInjective(e, c, e', c', p);
    FlatInjective(n / Group(g.groupN), k / Group(g.groupK), n' / Group(g.groupN), k' / Group(g.groupK), CeilDiv(g.K, Group(g.groupK)));
  }

  /** Where the kernels read the scale of weight (j, k): ceil(K / groupK) scales for each group of groupN rows. */
  function ScaleIndex(K: nat, groupN: int, groupK: int, j: nat, k: nat): nat {
    var gn: nat := if groupN > 0 then groupN else 1;
    var gk: nat := if groupK > 0 then groupK else 1;
    Flat(j / gn, k / gk, (K + gk - 1) / gk)
  }

  /** That is the place of the scale in its expert's table, and it lies inside the table. */
  lemma ScaleIndexInTable(g: Grid, j: nat, k: nat)
    requires j < g.N && k < g.K
    ensures ScaleIndex(g.K, g.groupN, g.groupK, j, k) == InExpert(g, j, k) < PerExpert(g)
  {
    InsideExpert(g, j, k);
    hide Area, Flat;
  }

  /** Buffer and offset written out. */
  lemma OffsetIs(g: Grid, e: nat, n: nat, k: nat)
    requires n < g.N && k < g.K
    ensures var gn, gk := Group(g.groupN), Group(g.groupK);
      var nb, kb := (g.N + gn - 1) / gn, (g.K + gk - 1) / gk;
      && TableBytes(g) == g.E * (nb * kb) * g.width
      && ByteOffset(g, e, n, k) == (e * (nb * kb) + (n / gn * kb + k / gk)) * g.width
  {
  }
}
