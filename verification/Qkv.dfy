/** The fused layout of the query, key and value projections, and the two ways back. A tensor is the
    list of its rows. */
module Qkv {
  import opened Options
  import opened Arith

  datatype Parts<T> = Parts(q: seq<T>, k: seq<T>, v: seq<T>)

  // ------------------------------------------------------------------ fusing

  /** For each of the `g` groups: its query rows, its key rows, its value rows. */
  function Fuse<T>(p: Parts<T>, g: nat, qn: nat, kn: nat): seq<T>
    requires |p.q| == Rows(g, qn) && |p.k| == Rows(g, kn) && |p.v| == Rows(g, kn)
    decreases g
  {
    if g == 0 then []
    else
      p.q[..qn] + p.k[..kn] + p.v[..kn] + Fuse(Parts(p.q[qn..], p.k[kn..], p.v[kn..]), g - 1, qn, kn)
  }

  /** The stretch [from, from + n) of each of the first `g` blocks of width `w`. */
  function Pick<T>(t: seq<T>, g: nat, w: nat, from: nat, n: nat): (r: seq<T>)
    requires |t| == Rows(g, w) && from + n <= w
    ensures |r| == Rows(g, n)
    decreases g
  {
    if g == 0 then []
    else
      t[from..from + n] + Pick(t[w..], g - 1, w, from, n)
  }

  lemma {:induction false} PickCons<T>(x: seq<T>, t: seq<T>, g: nat, w: nat, from: nat, n: nat)
    requires |x| == w && |t| == Rows(g, w) && from + n <= w
    ensures |x + t| == Rows(g + 1, w)
    ensures Pick(x + t, g + 1, w, from, n) == x[from..from + n] + Pick(t, g, w, from, n)
  {
    assert (x + t)[w..] == t && (x + t)[from..from + n] == x[from..from + n];
  }

  function Unfuse<T>(t: seq<T>, g: nat, qn: nat, kn: nat): Parts<T>
    requires |t| == Rows(g, qn + 2 * kn)
  {
    var w := qn + 2 * kn;
    Parts(Pick(t, g, w, 0, qn), Pick(t, g, w, qn, kn), Pick(t, g, w, qn + kn, kn))
  }

  lemma {:induction false} FuseLength<T>(p: Parts<T>, g: nat, qn: nat, kn: nat)
    requires |p.q| == Rows(g, qn) && |p.k| == Rows(g, kn) && |p.v| == Rows(g, kn)
    ensures |Fuse(p, g, qn, kn)| == Rows(g, qn + 2 * kn)
    decreases g
  {
    if g > 0 {
      FuseLength(Parts(p.q[qn..], p.k[kn..], p.v[kn..]), g - 1, qn, kn);
    }
  }

  /** Splitting recovers what was fused ... */
  lemma {:induction false} UnfuseUndoesFuse<T>(p: Parts<T>, g: nat, qn: nat, kn: nat)
    requires |p.q| == Rows(g, qn) && |p.k| == Rows(g, kn) && |p.v| == Rows(g, kn)
    ensures |Fuse(p, g, qn, kn)| == Rows(g, qn + 2 * kn)
    ensures Unfuse(Fuse(p, g, qn, kn), g, qn, kn) == p
    decreases g
  {
    hide Pick, Unfuse;
    FuseLength(p, g, qn, kn);
    if g == 0 {
      UnfuseLengths(Fuse(p, g, qn, kn), g, qn, kn);
    } else {
      var rest := Parts(p.q[qn..], p.k[kn..], p.v[kn..]);
      UnfuseUndoesFuse(rest, g - 1, qn, kn);
      FirstBlock(p.q[..qn], p.k[..kn], p.v[..kn], Fuse(rest, g - 1, qn, kn), g, qn, kn);
      assert p.q[..qn] + p.q[qn..] == p.q && p.k[..kn] + p.k[kn..] == p.k && p.v[..kn] + p.v[kn..] == p.v;
    }
  }

  /** What one more block in front adds to each part. */
  lemma {:induction false} FirstBlock<T>(q: seq<T>, k: seq<T>, v: seq<T>, rest: seq<T>, g: nat, qn: nat, kn: nat)
    requires g > 0 && |q| == qn && |k| == kn && |v| == kn && |rest| == Rows(g - 1, qn + 2 * kn)
    ensures |q + k + v + rest| == Rows(g, qn + 2 * kn)
    ensures var u, r := Unfuse(q + k + v + rest, g, qn, kn), Unfuse(rest, g - 1, qn, kn);
            u == Parts(q + r.q, k + r.k, v + r.v)
  {
    hide Pick;
    var t := q + k + v + rest;
    var x := q + k + v;
    assert t == x + rest;
    PickCons(x, rest, g - 1, qn + 2 * kn, 0, qn);
    PickCons(x, rest, g - 1, qn + 2 * kn, qn, kn);
    PickCons(x, rest, g - 1, qn + 2 * kn, qn + kn, kn);
    assert x[..qn] == q && x[qn..qn + kn] == k && x[qn + kn..qn + 2 * kn] == v;
  }

  lemma {:induction false} FuseCons<T>(q: seq<T>, k: seq<T>, v: seq<T>, p: Parts<T>, g: nat, qn: nat, kn: nat)
    requires |q| == qn && |k| == kn && |v| == kn
    requires |p.q| == Rows(g, qn) && |p.k| == Rows(g, kn) && |p.v| == Rows(g, kn)
    ensures var all := Parts(q + p.q, k + p.k, v + p.v);
            && |all.q| == Rows(g + 1, qn) && |all.k| == Rows(g + 1, kn) && |all.v| == Rows(g + 1, kn)
            && Fuse(all, g + 1, qn, kn) == q + k + v + Fuse(p, g, qn, kn)
  {
    var all := Parts(q + p.q, k + p.k, v + p.v);
    assert all.q[..qn] == q && all.k[..kn] == k && all.v[..kn] == v;
    assert Parts(all.q[qn..], all.k[kn..], all.v[kn..]) == p;
  }

  lemma {:induction false} UnfuseLengths<T>(t: seq<T>, g: nat, qn: nat, kn: nat)
    requires |t| == Rows(g, qn + 2 * kn)
    ensures var p := Unfuse(t, g, qn, kn);
            |p.q| == Rows(g, qn) && |p.k| == Rows(g, kn) && |p.v| == Rows(g, kn)
  {
    hide Pick, Rows;
  }

  lemma {:induction false} FuseNothing<T>(p: Parts<T>, qn: nat, kn: nat)
    requires |p.q| == Rows(0, qn) && |p.k| == Rows(0, kn) && |p.v| == Rows(0, kn)
    ensures Rows(0, qn + 2 * kn) == 0 && Fuse(p, 0, qn, kn) == []
  {
  }

  lemma {:induction false} CutBlock<T>(t: seq<T>, qn: nat, kn: nat)
    requires |t| >= qn + 2 * kn
    ensures t[..qn] + t[qn..qn + kn] + t[qn + kn..qn + 2 * kn] + t[qn + 2 * kn..] == t
  {
  }

  /** ... and fusing what was split gives the tensor back. */
  lemma {:induction false} FuseUndoesUnfuse<T>(t: seq<T>, g: nat, qn: nat, kn: nat)
    requires |t| == Rows(g, qn + 2 * kn)
    ensures var p := Unfuse(t, g, qn, kn);
            && |p.q| == Rows(g, qn) && |p.k| == Rows(g, kn) && |p.v| == Rows(g, kn)
            && Fuse(p, g, qn, kn) == t
    decreases g
  {
    hide Fuse, Pick, Rows, Unfuse;
    UnfuseLengths(t, g, qn, kn);
    if g == 0 {
      FuseNothing(Unfuse(t, g, qn, kn), qn, kn);
    } else {
      var w := qn + 2 * kn;
      RowsStep(g, w);
      var q, k, v, rest := t[..qn], t[qn..qn + kn], t[qn + kn..w], t[w..];
      FuseUndoesUnfuse(rest, g - 1, qn, kn);
      CutBlock(t, qn, kn);
      FirstBlock(q, k, v, rest, g, qn, kn);
      FuseCons(q, k, v, Unfuse(rest, g - 1, qn, kn), g - 1, qn, kn);
    }
  }

  // ------------------------------------------------------------------ splitting, as the mergers do

  /** `t.split(size)`: pieces of one size, the last one possibly shorter. */
  function Pieces<T>(t: seq<T>, size: nat): seq<seq<T>>
    requires size > 0
  {
    if |t| <= size then [t] else [t[..size]] + Pieces(t[size..], size)
  }

  /** `t.chunk(n)`; nothing is cut into pieces without rows. */
  function Chunks<T>(t: seq<T>, n: nat): seq<seq<T>>
    requires n > 0
  {
    if t == [] then [[]]
    else
      FirstChunk(|t|, n);
      Pieces(t, (|t| + n - 1) / n)
  }

  lemma {:induction false} EvenPieces<T>(t: seq<T>, g: nat, w: nat)
    requires g > 0 && w > 0 && |t| == Rows(g, w)
    ensures |Pieces(t, w)| == g
    ensures forall i | 0 <= i < g :: |Pieces(t, w)[i]| == w
    decreases g
  {
    if g > 1 {
      EvenPieces(t[w..], g - 1, w);
    }
  }

  /** The stretch [from, from + n) of every piece. */
  function PickAll<T>(pieces: seq<seq<T>>, from: nat, n: nat): seq<T>
    requires forall i | 0 <= i < |pieces| :: |pieces[i]| >= from + n
  {
    if pieces == [] then [] else pieces[0][from..from + n] + PickAll(pieces[1..], from, n)
  }

  lemma {:induction false} PickAllSnoc<T>(pieces: seq<seq<T>>, x: seq<T>, from: nat, n: nat)
    requires |x| >= from + n
    requires forall i | 0 <= i < |pieces| :: |pieces[i]| >= from + n
    ensures PickAll(pieces + [x], from, n) == PickAll(pieces, from, n) + x[from..from + n]
  {
    if pieces == [] {
      assert pieces + [x] == [x];
      assert [x][1..] == [];
    } else {
      PickAllSnoc(pieces[1..], x, from, n);
      assert (pieces + [x])[1..] == pieces[1..] + [x];
    }
  }

  lemma {:induction false} PickAllIsPick<T>(t: seq<T>, g: nat, w: nat, from: nat, n: nat)
    requires g > 0 && w > 0 && |t| == Rows(g, w) && from + n <= w
    ensures forall i | 0 <= i < |Pieces(t, w)| :: |Pieces(t, w)[i]| == w
    ensures PickAll(Pieces(t, w), from, n) == Pick(t, g, w, from, n)
    decreases g
  {
    EvenPieces(t, g, w);
    PickCons(t[..w], t[w..], g - 1, w, from, n);
    assert t[..w] + t[w..] == t;
    if g == 1 {
      assert PickAll([t][1..], from, n) == [];
      assert Pick(t[w..], 0, w, from, n) == [];
    } else {
      PickAllIsPick(t[w..], g - 1, w, from, n);
      assert Pieces(t, w)[1..] == Pieces(t[w..], w);
    }
  }

  lemma {:induction false} PickAllNone<T>(from: nat, n: nat)
    ensures PickAll<T>([], from, n) == []
  {
  }

  /** The inner loop of both mergers: every chunk is split in three, and each third is collected;
      `split` fails when the sizes do not add up to the chunk. */
  method SplitChunks<T>(pieces: seq<seq<T>>, qn: nat, kn: nat) returns (ok: bool, p: Parts<T>)
    ensures ok <==> forall i | 0 <= i < |pieces| :: |pieces[i]| == qn + 2 * kn
    ensures ok ==> p == Parts(PickAll(pieces, 0, qn), PickAll(pieces, qn, kn), PickAll(pieces, qn + kn, kn))
  {
    hide PickAll;
    PickAllNone<T>(0, qn);
    PickAllNone<T>(qn, kn);
    PickAllNone<T>(qn + kn, kn);
    assert pieces[..0] == [];
    p := Parts([], [], []);
    for i := 0 to |pieces|
      invariant forall j | 0 <= j < i :: |pieces[j]| == qn + 2 * kn
      invariant p.q == PickAll(pieces[..i], 0, qn)
      invariant p.k == PickAll(pieces[..i], qn, kn) && p.v == PickAll(pieces[..i], qn + kn, kn)
    {
      var chunk := pieces[i];
      if |chunk| != qn + 2 * kn {
        return false, p;
      }
      assert pieces[..i + 1] == pieces[..i] + [chunk];
      PickAllSnoc(pieces[..i], chunk, 0, qn);
      PickAllSnoc(pieces[..i], chunk, qn, kn);
      PickAllSnoc(pieces[..i], chunk, qn + kn, kn);
      p := Parts(p.q + chunk[..qn], p.k + chunk[qn..qn + kn], p.v + chunk[qn + kn..]);
    }
    assert pieces[..|pieces|] == pieces;
    ok := true;
  }

  /** `hd` whole rows for each head: the sizes that the mergers compute. */
  lemma {:induction false} EvenSizes(hd: nat, kv: nat, r: nat, rows: nat)
    requires kv > 0 && rows == hd * ((r + 2) * kv)
    ensures rows % (r + 2) == 0 && rows / (r + 2) == hd * kv
    ensures (hd * kv) * r / kv == hd * r && hd * kv / kv == hd
  {
    TimesAssociates(hd, r + 2, kv);
    TimesSwap(hd, r + 2, kv);
    QuotientIs(rows, r + 2, hd * kv);
    TimesSwap(hd, kv, r);
    QuotientIs((hd * kv) * r, kv, hd * r);
    QuotientIs(hd * kv, kv, hd);
  }

  /** Whole groups make whole chunks. */
  lemma {:induction false} EvenChunks(hd: nat, kv: nat, r: nat, rows: nat)
    requires kv > 0 && rows == hd * ((r + 2) * kv)
    ensures rows == Rows(kv, hd * r + 2 * hd) && (rows + kv - 1) / kv == hd * r + 2 * hd
  {
    TimesAssociates(hd, r + 2, kv);
    TimesSum(hd, r, 2);
    QuotientIs(rows + kv - 1, kv, hd * r + 2 * hd);
    RowsIs(kv, hd * r + 2 * hd);
  }

  /** Otherwise the sizes of a split fall short of the first chunk. */
  lemma {:induction false} UnevenChunks(size: nat, kv: nat, r: nat)
    requires kv > 0 && size % kv != 0
    ensures var rows := size * (r + 2);
            size * r / kv + 2 * (size / kv) < (rows + kv - 1) / kv
  {
    var rows := size * (r + 2);
    var a, b, c := size * r / kv, size / kv, (rows + kv - 1) / kv;
    assert a * kv <= size * r;
    assert b * kv < size;
    assert rows == size * r + 2 * size;
    assert rows <= c * kv;
    assert (a + 2 * b) * kv == a * kv + 2 * (b * kv);
    if a + 2 * b >= c {
      TimesGrows(c, a + 2 * b, kv);
    }
  }

  lemma {:induction false} FirstChunk(rows: nat, kv: nat)
    requires kv > 0 && rows > 0
    ensures 0 < (rows + kv - 1) / kv <= rows
  {
    TimesGrows(1, rows, kv - 1);
    assert rows * (kv - 1) == rows * kv - rows;
    var c := (rows + kv - 1) / kv;
    assert c * kv <= rows + kv - 1 < c * kv + kv;
    assert (rows + 1) * kv == rows * kv + kv;
    if c > rows {
      TimesGrows(rows + 1, c, kv);
    }
  }

  /** What the mergers compute for one split from the rows of a tensor. */
  function Sizes(rows: nat, kv: nat, r: nat): (nat, nat)
    requires kv > 0
  {
    var size := rows / (r + 2);
    (size * r / kv, size / kv)
  }

  /** What the configuration must satisfy for a fused tensor of `rows` rows. */
  predicate Divides(heads: nat, kv: nat, rows: nat) {
    kv > 0 && heads % kv == 0 && rows % ((heads / kv + 2) * kv) == 0
  }

  /** Whole groups of `hd` rows for each head. */
  lemma {:induction false} WholeSizes(rows: nat, kv: nat, r: nat, hd: nat)
    requires kv > 0 && hd > 0 && rows == hd * ((r + 2) * kv)
    ensures rows > 0 && rows % (r + 2) == 0 && rows % ((r + 2) * kv) == 0
    ensures Sizes(rows, kv, r) == (hd * r, hd)
    ensures rows == Rows(kv, hd * r + 2 * hd) && (rows + kv - 1) / kv == hd * r + 2 * hd > 0
  {
    EvenSizes(hd, kv, r, rows);
    EvenChunks(hd, kv, r, rows);
    assert (r + 2) * kv > 0;
    TimesGrows(1, hd, (r + 2) * kv);
    QuotientIs(rows, (r + 2) * kv, hd);
  }

  lemma {:induction false} WholeOrNot(rows: nat, kv: nat, r: nat)
    requires kv > 0 && rows > 0
    ensures rows % ((r + 2) * kv) == 0 ==>
              var hd := Sizes(rows, kv, r).1; hd > 0 && rows == hd * ((r + 2) * kv)
    ensures rows % ((r + 2) * kv) != 0 && rows % (r + 2) == 0 ==>
              rows == (rows / (r + 2)) * (r + 2) && (rows / (r + 2)) % kv != 0
  {
    DivideTwice(rows, r + 2, kv);
    if rows % ((r + 2) * kv) == 0 {
      var hd := rows / ((r + 2) * kv);
      EvenSizes(hd, kv, r, rows);
    }
    if rows % (r + 2) == 0 {
      Multiple(rows, r + 2);
    }
  }

  /** Every chunk has the length that its three parts add up to. */
  ghost predicate ChunksFit<T>(t: seq<T>, kv: nat, qn: nat, kn: nat)
    requires kv > 0
  {
    forall i | 0 <= i < |Chunks(t, kv)| :: |Chunks(t, kv)[i]| == qn + 2 * kn
  }

  lemma {:induction false} WholeChunks<T>(t: seq<T>, kv: nat, r: nat, hd: nat)
    requires kv > 0 && hd > 0 && t != [] && |t| == hd * ((r + 2) * kv)
    ensures Sizes(|t|, kv, r) == (hd * r, hd) && |t| == Rows(kv, hd * r + 2 * hd)
    ensures ChunksFit(t, kv, hd * r, hd)
    ensures var c := Chunks(t, kv);
            Parts(PickAll(c, 0, hd * r), PickAll(c, hd * r, hd), PickAll(c, hd * r + hd, hd)) ==
            Unfuse(t, kv, hd * r, hd)
  {
    hide Chunks, PickAll, Unfuse, Sizes, Rows;
    WholeSizes(|t|, kv, r, hd);
    ChunksUnfuse(t, kv, hd * r, hd);
  }

  lemma {:induction false} NothingFits<T>(kv: nat, r: nat)
    requires kv > 0
    ensures Sizes(0, kv, r) == (0, 0) && Rows(kv, 0) == 0 && ChunksFit<T>([], kv, 0, 0)
    ensures Chunks<T>([], kv) == [[]] && PickAll<T>([[]], 0, 0) == []
    ensures Unfuse<T>([], kv, 0, 0) == Parts([], [], [])
  {
    RowsIs(kv, 0);
    QuotientIs(0, r + 2, 0);
    QuotientIs(0, kv, 0);
    assert PickAll<T>([[]][1..], 0, 0) == [];
  }

  /** Whether splitting succeeds, decided by the rows alone. */
  lemma {:induction false} FitsWhenDivides<T>(t: seq<T>, heads: nat, kv: nat)
    requires kv > 0 && heads % kv == 0
    ensures var r := heads / kv;
            var (qn, kn) := Sizes(|t|, kv, r);
            && (Divides(heads, kv, |t|) <==> |t| % (r + 2) == 0 && ChunksFit(t, kv, qn, kn))
            && (Divides(heads, kv, |t|) ==>
                  var c := Chunks(t, kv);
                  && |t| == kn * ((r + 2) * kv) && qn == kn * r && |t| == Rows(kv, qn + 2 * kn)
                  && Parts(PickAll(c, 0, qn), PickAll(c, qn, kn), PickAll(c, qn + kn, kn)) == Unfuse(t, kv, qn, kn))
  {
    hide Chunks, PickAll, Unfuse, Rows, ChunksFit;
    var r := heads / kv;
    if t == [] {
      NothingFits<T>(kv, r);
      QuotientIs(0, (r + 2) * kv, 0);
      QuotientIs(0, r + 2, 0);
    } else {
      SomeFitsWhenDivides(t, heads, kv);
    }
  }

  lemma {:induction false} SomeFitsWhenDivides<T>(t: seq<T>, heads: nat, kv: nat)
    requires kv > 0 && t != [] && heads % kv == 0
    ensures var r := heads / kv;
            var (qn, kn) := Sizes(|t|, kv, r);
            && (Divides(heads, kv, |t|) <==> |t| % (r + 2) == 0 && ChunksFit(t, kv, qn, kn))
            && (Divides(heads, kv, |t|) ==>
                  var c := Chunks(t, kv);
                  && |t| == kn * ((r + 2) * kv) && qn == kn * r && |t| == Rows(kv, qn + 2 * kn)
                  && Parts(PickAll(c, 0, qn), PickAll(c, qn, kn), PickAll(c, qn + kn, kn)) == Unfuse(t, kv, qn, kn))
  {
    hide Chunks, PickAll, Unfuse, Rows;
    var r := heads / kv;
    WholeOrNot(|t|, kv, r);
    if Divides(heads, kv, |t|) {
      WholeSizes(|t|, kv, r, Sizes(|t|, kv, r).1);
      WholeChunks(t, kv, r, Sizes(|t|, kv, r).1);
    } else if |t| % (r + 2) == 0 {
      UnevenSplit(t, kv, r, |t| / (r + 2));
    }
  }

  lemma {:induction false} UnevenSplit<T>(t: seq<T>, kv: nat, r: nat, size: nat)
    requires kv > 0 && t != [] && |t| == size * (r + 2) && size % kv != 0
    ensures var c := Chunks(t, kv); c != [] && |c[0]| > size * r / kv + 2 * (size / kv)
  {
    UnevenChunks(size, kv, r);
    FirstChunk(|t|, kv);
  }

  /** `_split_tensors` on a fused tensor: it succeeds exactly when the tensor is made of whole groups. */
  method SplitQkv<T>(t: seq<T>, heads: nat, kv: nat) returns (r: Option<Parts<T>>)
    ensures r.Some? <==> Divides(heads, kv, |t|)
    ensures r.Some? ==>
              var (qn, kn) := Sizes(|t|, kv, heads / kv);
              && qn == kn * (heads / kv) && |t| == Rows(kv, qn + 2 * kn)
              && r.value == Unfuse(t, kv, qn, kn)
  {
    hide Chunks, PickAll, Unfuse, Sizes, Rows;
    if kv == 0 || heads % kv != 0 {
      return None;
    }
    FitsWhenDivides(t, heads, kv);
    if |t| % (heads / kv + 2) != 0 {
      return None;
    }
    var (qn, kn) := Sizes(|t|, kv, heads / kv);
    var ok, p := SplitChunks(Chunks(t, kv), qn, kn);
    r := if ok then Some(p) else None;
  }

  lemma {:induction false} ChunksUnfuse<T>(t: seq<T>, g: nat, qn: nat, kn: nat)
    requires g > 0 && t != [] && |t| == Rows(g, qn + 2 * kn) && (|t| + g - 1) / g == qn + 2 * kn > 0
    ensures var c := Chunks(t, g);
            && (forall i | 0 <= i < |c| :: |c[i]| == qn + 2 * kn)
            && Parts(PickAll(c, 0, qn), PickAll(c, qn, kn), PickAll(c, qn + kn, kn)) == Unfuse(t, g, qn, kn)
  {
    hide Pieces, PickAll, Pick, Rows;
    var w := qn + 2 * kn;
    EvenPieces(t, g, w);
    PickAllIsPick(t, g, w, 0, qn);
    PickAllIsPick(t, g, w, qn, kn);
    PickAllIsPick(t, g, w, qn + kn, kn);
  }

  /** What the converter fuses, the merger splits into the same three tensors: for every number of heads
      that the key-value heads divide, and every head dimension. */
  method ConvertThenSplit<T>(p: Parts<T>, heads: nat, kv: nat, hd: nat) returns (r: Option<Parts<T>>)
    requires kv > 0 && hd > 0 && heads % kv == 0
    requires |p.q| == Rows(kv, hd * (heads / kv)) && |p.k| == Rows(kv, hd) && |p.v| == Rows(kv, hd)
    ensures r == Some(p)
  {
    hide Fuse, Unfuse, Sizes, Rows;
    var per := heads / kv;
    var t := Fuse(p, kv, hd * per, hd);
    UnfuseUndoesFuse(p, kv, hd * per, hd);
    FusedRows(|t|, kv, hd, per);
    WholeSizes(|t|, kv, per, hd);
    r := SplitQkv(t, heads, kv);
  }

  lemma {:induction false} FusedRows(rows: nat, kv: nat, hd: nat, per: nat)
    requires rows == Rows(kv, hd * per + 2 * hd)
    ensures rows == hd * ((per + 2) * kv)
  {
    RowsIs(kv, hd * per + 2 * hd);
    TimesSum(hd, per, 2);
    TimesAssociates(kv, hd, per + 2);
    TimesAssociates(hd, kv, per + 2);
  }

  // ------------------------------------------------------------------ tensor-parallel slices

  /** The contiguous slices of `tp` ranks, each of `n` rows. */
  function Slices<T>(t: seq<T>, tp: nat, n: nat): (s: seq<seq<T>>)
    requires |t| == Rows(tp, n)
    ensures |s| == tp && forall i | 0 <= i < tp :: |s[i]| == n
    decreases tp
  {
    if tp == 0 then []
    else
      [t[..n]] + Slices(t[n..], tp - 1, n)
  }

  lemma {:induction false} PickNone<T>(w: nat, from: nat, n: nat)
    requires from + n <= w
    ensures Rows(0, w) == 0 && Pick<T>([], 0, w, from, n) == []
  {
  }

  lemma {:induction false} PickConcat<T>(a: seq<T>, ga: nat, b: seq<T>, gb: nat, w: nat, from: nat, n: nat)
    requires |a| == Rows(ga, w) && |b| == Rows(gb, w) && from + n <= w
    ensures |a + b| == Rows(ga + gb, w)
    ensures Pick(a + b, ga + gb, w, from, n) == Pick(a, ga, w, from, n) + Pick(b, gb, w, from, n)
    decreases ga, 1
  {
    hide Pick, Rows;
    RowsSum(ga, gb, w);
    if ga == 0 {
      PickNone<T>(w, from, n);
      assert a == [] && a + b == b;
    } else {
      RowsStep(ga, w);
      PickConcatStep(a[..w], a[w..], ga - 1, b, gb, w, from, n);
      assert a[..w] + a[w..] == a;
    }
  }

  lemma {:induction false} PickConcatStep<T>(
    x: seq<T>, y: seq<T>, g: nat, b: seq<T>, gb: nat, w: nat, from: nat, n: nat)
    requires |x| == w && |y| == Rows(g, w) && |b| == Rows(gb, w) && from + n <= w
    ensures |x + y| == Rows(g + 1, w) && |x + y + b| == Rows(g + 1 + gb, w)
    ensures Pick(x + y + b, g + 1 + gb, w, from, n) == Pick(x + y, g + 1, w, from, n) + Pick(b, gb, w, from, n)
    decreases g + 1, 0
  {
    hide Pick, Rows;
    PickConcat(y, g, b, gb, w, from, n);
    PickCons(x, y, g, w, from, n);
    PickCons(x, y + b, g + gb, w, from, n);
    assert x + y + b == x + (y + b);
  }

  /** The three parts of all slices, one slice after the other. */
  function UnfuseAll<T>(slices: seq<seq<T>>, g: nat, qn: nat, kn: nat): Parts<T>
    requires forall i | 0 <= i < |slices| :: |slices[i]| == Rows(g, qn + 2 * kn)
  {
    if slices == [] then Parts([], [], [])
    else
      var first, rest := Unfuse(slices[0], g, qn, kn), UnfuseAll(slices[1..], g, qn, kn);
      Parts(first.q + rest.q, first.k + rest.k, first.v + rest.v)
  }

  lemma {:induction false} UnfuseAllCons<T>(x: seq<T>, slices: seq<seq<T>>, g: nat, qn: nat, kn: nat)
    requires |x| == Rows(g, qn + 2 * kn)
    requires forall i | 0 <= i < |slices| :: |slices[i]| == Rows(g, qn + 2 * kn)
    ensures var first, rest := Unfuse(x, g, qn, kn), UnfuseAll(slices, g, qn, kn);
            UnfuseAll([x] + slices, g, qn, kn) == Parts(first.q + rest.q, first.k + rest.k, first.v + rest.v)
  {
    assert ([x] + slices)[1..] == slices;
  }

  lemma {:induction false} UnfuseAllSnoc<T>(slices: seq<seq<T>>, x: seq<T>, g: nat, qn: nat, kn: nat)
    requires |x| == Rows(g, qn + 2 * kn)
    requires forall i | 0 <= i < |slices| :: |slices[i]| == Rows(g, qn + 2 * kn)
    ensures var all, before := UnfuseAll(slices + [x], g, qn, kn), UnfuseAll(slices, g, qn, kn);
            var last := Unfuse(x, g, qn, kn);
            all == Parts(before.q + last.q, before.k + last.k, before.v + last.v)
  {
    hide Unfuse, Rows;
    if slices == [] {
      UnfuseAllCons(x, [], g, qn, kn);
      assert slices + [x] == [x] + [];
    } else {
      hide UnfuseAll;
      var head, tail := slices[0], slices[1..];
      UnfuseAllSnoc(tail, x, g, qn, kn);
      UnfuseAllCons(head, tail, g, qn, kn);
      UnfuseAllCons(head, tail + [x], g, qn, kn);
      assert slices == [head] + tail && slices + [x] == [head] + (tail + [x]);
    }
  }

  lemma {:induction false} UnfuseConcat<T>(a: seq<T>, ga: nat, b: seq<T>, gb: nat, qn: nat, kn: nat)
    requires |a| == Rows(ga, qn + 2 * kn) && |b| == Rows(gb, qn + 2 * kn)
    ensures |a + b| == Rows(ga + gb, qn + 2 * kn)
    ensures var u, x, y := Unfuse(a + b, ga + gb, qn, kn), Unfuse(a, ga, qn, kn), Unfuse(b, gb, qn, kn);
            u == Parts(x.q + y.q, x.k + y.k, x.v + y.v)
  {
    hide Pick;
    PickConcat(a, ga, b, gb, qn + 2 * kn, 0, qn);
    PickConcat(a, ga, b, gb, qn + 2 * kn, qn, kn);
    PickConcat(a, ga, b, gb, qn + 2 * kn, qn + kn, kn);
  }

  lemma {:induction false} SlicesCons<T>(t: seq<T>, tp: nat, n: nat)
    requires tp > 0 && |t| == Rows(tp, n)
    ensures n <= |t| == n + Rows(tp - 1, n)
    ensures Slices(t, tp, n) == [t[..n]] + Slices(t[n..], tp - 1, n)
  {
  }

  /** Splitting slice by slice is splitting the whole. */
  lemma {:induction false} SlicesSplitAlike<T>(t: seq<T>, tp: nat, g: nat, qn: nat, kn: nat)
    requires |t| == Rows(tp, Rows(g, qn + 2 * kn))
    ensures |t| == Rows(tp * g, qn + 2 * kn)
    ensures UnfuseAll(Slices(t, tp, Rows(g, qn + 2 * kn)), g, qn, kn) == Unfuse(t, tp * g, qn, kn)
    decreases tp, 1
  {
    RowsOfRows(tp, g, qn + 2 * kn);
    if tp == 0 {
      NoSlices<T>(g, qn, kn);
    } else {
      SlicesSplitStep(t, tp, g, qn, kn);
    }
  }

  lemma {:induction false} SlicesSplitStep<T>(t: seq<T>, tp: nat, g: nat, qn: nat, kn: nat)
    requires tp > 0 && |t| == Rows(tp, Rows(g, qn + 2 * kn)) == Rows(tp * g, qn + 2 * kn)
    ensures UnfuseAll(Slices(t, tp, Rows(g, qn + 2 * kn)), g, qn, kn) == Unfuse(t, tp * g, qn, kn)
    decreases tp, 0
  {
    hide Unfuse, UnfuseAll, Slices, Rows;
    var n := Rows(g, qn + 2 * kn);
    SlicesCons(t, tp, n);
    var a, b, gb := t[..n], t[n..], (tp - 1) * g;
    SlicesSplitAlike(b, tp - 1, g, qn, kn);
    assert g + gb == tp * g;
    UnfuseConcat(a, g, b, gb, qn, kn);
    assert a + b == t;
    UnfuseAllCons(a, Slices(b, tp - 1, n), g, qn, kn);
  }

  /** What `_merge_across_tp` needs of its slices: the sizes come from the first of them. */
  ghost predicate Mergeable<T>(slices: seq<seq<T>>, heads: nat, kv: nat, tp: nat)
    requires slices != [] && tp > 0
  {
    && kv > 0 && heads % kv == 0 && |slices[0]| % (heads / kv + 2) == 0 && kv / tp > 0
    && var (qn, kn) := Sizes(|slices[0]|, kv / tp, heads / kv);
       forall i | 0 <= i < |slices| :: ChunksFit(slices[i], kv / tp, qn, kn)
  }

  /** The slices are made of whole groups, with `hd` rows for each head. */
  predicate WholeSlices<T>(slices: seq<seq<T>>, heads: nat, kv: nat, tp: nat, hd: nat)
    requires tp > 0 && kv > 0
  {
    && heads % kv == 0 && kv % tp == 0 && hd > 0
    && forall i | 0 <= i < |slices| :: |slices[i]| == Rows(kv / tp, hd * (heads / kv) + 2 * hd)
  }

  /** The parts of whole slices. */
  function WholeParts<T>(slices: seq<seq<T>>, heads: nat, kv: nat, tp: nat, hd: nat): Parts<T>
    requires tp > 0 && kv > 0 && WholeSlices(slices, heads, kv, tp, hd)
  {
    UnfuseAll(slices, kv / tp, hd * (heads / kv), hd)
  }

  lemma {:induction false} WholeSlicesMerge<T>(slices: seq<seq<T>>, heads: nat, kv: nat, tp: nat, hd: nat)
    requires slices != [] && tp > 0 && kv > 0 && WholeSlices(slices, heads, kv, tp, hd)
    ensures kv / tp > 0 && |slices[0]| % (heads / kv + 2) == 0
    ensures Sizes(|slices[0]|, kv / tp, heads / kv) == (hd * (heads / kv), hd)
    ensures forall i | 0 <= i < |slices| ::
              slices[i] != [] && |slices[i]| == hd * ((heads / kv + 2) * (kv / tp))
  {
    hide Sizes, Rows;
    Multiple(kv, tp);
    forall i | 0 <= i < |slices|
      ensures slices[i] != [] && |slices[i]| == hd * ((heads / kv + 2) * (kv / tp))
    {
      FusedRows(|slices[i]|, kv / tp, hd, heads / kv);
      WholeSizes(|slices[i]|, kv / tp, heads / kv, hd);
    }
    WholeSizes(|slices[0]|, kv / tp, heads / kv, hd);
  }

  lemma {:induction false} MergeOneMore<T>(
    slices: seq<seq<T>>, heads: nat, kv: nat, tp: nat, hd: nat, i: nat, piece: Parts<T>)
    requires tp > 0 && kv > 0 && kv / tp > 0 && WholeSlices(slices, heads, kv, tp, hd) && i < |slices|
    requires var c, qn, kn := Chunks(slices[i], kv / tp), hd * (heads / kv), hd;
             && (forall k | 0 <= k < |c| :: |c[k]| == qn + 2 * kn)
             && piece == Parts(PickAll(c, 0, qn), PickAll(c, qn, kn), PickAll(c, qn + kn, kn))
    ensures var g, qn, kn := kv / tp, hd * (heads / kv), hd;
            var all, before := UnfuseAll(slices[..i + 1], g, qn, kn), UnfuseAll(slices[..i], g, qn, kn);
            all == Parts(before.q + piece.q, before.k + piece.k, before.v + piece.v)
  {
    hide Chunks, PickAll, Unfuse, UnfuseAll, Sizes, Rows;
    var g, qn, kn := kv / tp, hd * (heads / kv), hd;
    WholeSlicesMerge(slices, heads, kv, tp, hd);
    WholeChunks(slices[i], g, heads / kv, hd);
    assert slices[..i + 1] == slices[..i] + [slices[i]];
    UnfuseAllSnoc(slices[..i], slices[i], g, qn, kn);
  }

  /** `_merge_across_tp` on the slices of a fused tensor: it fails on anything that is not mergeable,
      and gives the parts of all slices when these are whole. */
  method MergeAcrossTp<T>(slices: seq<seq<T>>, heads: nat, kv: nat, tp: nat, ghost hd: nat)
    returns (r: Option<Parts<T>>)
    requires slices != [] && tp > 0
    ensures r.Some? <==> Mergeable(slices, heads, kv, tp)
    ensures kv > 0 && WholeSlices(slices, heads, kv, tp, hd) ==>
              r == Some(WholeParts(slices, heads, kv, tp, hd))
  {
    hide Chunks, PickAll, Unfuse, UnfuseAll, Sizes, Rows;
    if kv == 0 || heads % kv != 0 {
      return None;
    }
    var per, groups := heads / kv, kv / tp;
    ghost var whole := WholeSlices(slices, heads, kv, tp, hd);
    if whole {
      WholeSlicesMerge(slices, heads, kv, tp, hd);
    }
    if |slices[0]| % (per + 2) != 0 || groups == 0 {
      return None;
    }
    var (qn, kn) := Sizes(|slices[0]|, groups, per);
    var p: Parts<T> := Parts([], [], []);
    NoSlices<T>(groups, qn, kn);
    assert slices[..0] == [];
    for i := 0 to |slices|
      invariant forall j | 0 <= j < i :: ChunksFit(slices[j], groups, qn, kn)
      invariant whole ==> forall j | 0 <= j < |slices| :: |slices[j]| == Rows(groups, qn + 2 * kn)
      invariant whole ==> p == UnfuseAll(slices[..i], groups, qn, kn)
    {
      var ok, piece := SplitChunks(Chunks(slices[i], groups), qn, kn);
      if whole {
        WholeChunks(slices[i], groups, per, hd);
        MergeOneMore(slices, heads, kv, tp, hd, i, piece);
      }
      if !ok {
        return None;
      }
      p := Parts(p.q + piece.q, p.k + piece.k, p.v + piece.v);
    }
    assert slices[..|slices|] == slices;
    r := Some(p);
  }

  lemma {:induction false} NoSlices<T>(g: nat, qn: nat, kn: nat)
    ensures UnfuseAll<T>([], g, qn, kn) == Parts([], [], [])
  {
  }

  /** For every number of tensor-parallel ranks that divides the key-value heads, merging the contiguous
      slices of the fused tensor gives the three tensors it was fused from. */
  method ConvertThenMerge<T>(p: Parts<T>, heads: nat, kv: nat, hd: nat, tp: nat) returns (r: Option<Parts<T>>)
    requires kv > 0 && hd > 0 && heads % kv == 0 && tp > 0 && kv % tp == 0
    requires |p.q| == Rows(kv, hd * (heads / kv)) && |p.k| == Rows(kv, hd) && |p.v| == Rows(kv, hd)
    ensures r == Some(p)
  {
    hide Fuse, Unfuse, UnfuseAll, Slices, Rows;
    var per, groups := heads / kv, kv / tp;
    var t := Fuse(p, kv, hd * per, hd);
    UnfuseUndoesFuse(p, kv, hd * per, hd);
    Multiple(kv, tp);
    TimesSwap(1, tp, groups);
    RowsOfRows(tp, groups, hd * per + 2 * hd);
    var slices := Slices(t, tp, Rows(groups, hd * per + 2 * hd));
    SlicesSplitAlike(t, tp, groups, hd * per, hd);
    r := MergeAcrossTp(slices, heads, kv, tp, hd);
  }
}
