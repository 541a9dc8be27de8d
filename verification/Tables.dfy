/** Row-major tables. */
module Tables {
  /** Position of cell (r, c) in a row-major table w wide. */
  function Flat(r: nat, c: nat, w: nat): nat {
    r * w + c
  }

  function Area(rows: nat, w: nat): nat {
    rows * w
  }

  lemma MulLe(a: int, b: int, w: nat)
    ensures a <= b ==> a * w <= b * w
  {
  }

  lemma AreaAdd(a: nat, b: nat, w: nat)
    ensures Area(a + b, w) == Area(a, w) + Area(b, w) && Area(0, w) == 0 && Area(1, w) == w
  {
  }

  lemma AreaLe(a: nat, b: nat, w: nat)
    ensures a <= b ==> Area(a, w) <= Area(b, w)
  {
    MulLe(a, b, w);
  }

  lemma FlatBound(r: nat, c: nat, w: nat, rows: nat)
    requires r < rows && c < w
    ensures Flat(r, c, w) < Area(rows, w)
  {
    assert (r + 1) * w <= rows * w;
  }

  lemma FlatInverse(r: nat, c: nat, w: nat)
    requires c < w
    ensures Flat(r, c, w) / w == r && Flat(r, c, w) % w == c
  {
    var q := Flat(r, c, w) / w;
    MulLe(q + 1, r, w);
    MulLe(r + 1, q, w);
  }

  /** Distinct cells have distinct positions. */
  lemma FlatInjective(r: nat, c: nat, r': nat, c': nat, w: nat)
    requires c < w && c' < w
    ensures Flat(r, c, w) == Flat(r', c', w) <==> r == r' && c == c'
  {
    FlatInverse(r, c, w);
    FlatInverse(r', c', w);
  }

  lemma Unflat(x: nat, w: nat, rows: nat)
    requires x < Area(rows, w)
    ensures w > 0 && x / w < rows && x % w < w && Flat(x / w, x % w, w) == x
  {
    assert w > 0;
    MulLe(rows, x / w, w);
  }

  /** Cell (r, c) of a buffer holds v. */
  ghost predicate Holds<T>(buf: seq<T>, r: nat, c: nat, w: nat, v: T) {
    Flat(r, c, w) < |buf| && buf[Flat(r, c, w)] == v
  }

  /** Cell (r, c) found in row r. */
  lemma RowEntry<T>(t: seq<T>, r: nat, c: nat, w: nat, rows: nat)
    requires r < rows && c < w && Area(rows, w) <= |t|
    ensures Flat(r, c, w) < |t| && Area(r, w) + w <= |t| && t[Area(r, w)..Area(r, w) + w][c] == t[Flat(r, c, w)]
  {
    FlatBound(r, c, w, rows);
    AreaLe(r + 1, rows, w);
    AreaAdd(r, 1, w);
    assert Flat(r, c, w) == Area(r, w) + c;
    hide Flat, Area;
  }
}
