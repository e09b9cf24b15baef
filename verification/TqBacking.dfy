// Backing the synthetic packed stream with consecutive ranges of existing files.
module TqBacking {
  import opened Slices

  datatype Piece = Piece(file: nat, offset: nat, nbytes: nat)

  datatype Taken = Taken(pieces: seq<Piece>) | Exhausted

  // Bytes in the first n files.
  function Before(sizes: seq<nat>, n: nat): nat
    requires n <= |sizes|
  {
    if n == 0 then 0 else Before(sizes, n - 1) + sizes[n - 1]
  }

  predicate InFile(sizes: seq<nat>, p: Piece) {
    p.file < |sizes| && p.nbytes > 0 && p.offset + p.nbytes <= sizes[p.file]
  }

  // The pieces cover bytes from .. from + size of the files laid end to end, in order, no gaps.
  predicate Covers(sizes: seq<nat>, pieces: seq<Piece>, from: nat, size: nat) {
    if |pieces| == 0 then size == 0
    else
      var n := |pieces| - 1;
      var p := pieces[n];
      && InFile(sizes, p) && p.nbytes <= size
      && Before(sizes, p.file) + p.offset == from + size - p.nbytes
      && Covers(sizes, pieces[..n], from, size - p.nbytes)
  }

  lemma CoversSnoc(sizes: seq<nat>, pieces: seq<Piece>, from: nat, size: nat, p: Piece)
    requires Covers(sizes, pieces, from, size) && InFile(sizes, p)
    requires Before(sizes, p.file) + p.offset == from + size
    ensures Covers(sizes, pieces + [p], from, size + p.nbytes)
  {
    assert (pieces + [p])[..|pieces|] == pieces;
  }

  class Backing {
    const sizes: seq<nat>
    var file: nat
    var offset: nat

    ghost predicate Valid()
      reads this
    {
      && file <= |sizes|
      && (file < |sizes| ==> offset <= sizes[file])
      && (file == |sizes| ==> offset == 0)
    }

    // How many bytes have been handed out (or skipped by empty files).
    ghost function Position(): nat
      requires Valid()
      reads this
    {
      Before(sizes, file) + offset
    }

    constructor (sizes: seq<nat>)
      ensures Valid() && this.sizes == sizes && Position() == 0
    {
      this.sizes := sizes;
      file, offset := 0, 0;
    }

    // The next `size` bytes; fails exactly when fewer are left.
    method Take(size: nat) returns (r: Taken)
      requires Valid()
      modifies this
      ensures Valid()
      ensures r.Exhausted? <==> old(Position()) + size > Before(sizes, |sizes|)
      ensures r.Taken? ==> Covers(sizes, r.pieces, old(Position()), size) && Position() == old(Position()) + size
      ensures r.Exhausted? ==> Position() == Before(sizes, |sizes|)
    {
      hide Covers;
      var pieces: seq<Piece> := [];
      var left := size;
      NothingCovered(sizes, Position());
      while left > 0
        invariant Valid() && 0 <= left <= size
        invariant Position() == old(Position()) + (size - left)
        invariant Covers(sizes, pieces, old(Position()), size - left)
        decreases left, |sizes| - file
      {
        if file >= |sizes| {
          return Exhausted;
        }
        var available := sizes[file] - offset;
        var take := if left < available then left else available;
        if take > 0 {
          CoversSnoc(sizes, pieces, old(Position()), size - left, Piece(file, offset, take));
          pieces := pieces + [Piece(file, offset, take)];
          offset := offset + take;
          left := left - take;
        }
        if offset == sizes[file] {
          file, offset := file + 1, 0;
        }
      }
      PositionBounded();
      r := Taken(pieces);
    }

    lemma PositionBounded()
      requires Valid()
      ensures Position() <= Before(sizes, |sizes|)
    {
      if file < |sizes| {
        BeforeMonotone(sizes, file + 1, |sizes|);
      }
    }
  }

  lemma NothingCovered(sizes: seq<nat>, from: nat)
    ensures Covers(sizes, [], from, 0)
  {
  }

  lemma {:induction false} BeforeMonotone(sizes: seq<nat>, m: nat, n: nat)
    requires m <= n <= |sizes|
    ensures Before(sizes, m) <= Before(sizes, n)
  {
    if m < n { BeforeMonotone(sizes, m, n - 1); }
  }

  // ----- the bytes behind the pieces -----

  function Sizes(files: seq<seq<nat>>): (s: seq<nat>)
    ensures |s| == |files| && forall i :: 0 <= i < |s| ==> s[i] == |files[i]|
  {
    seq(|files|, i requires 0 <= i < |files| => |files[i]|)
  }

  function Joined(files: seq<seq<nat>>, n: nat): (all: seq<nat>)
    requires n <= |files|
    ensures |all| == Before(Sizes(files), n)
  {
    if n == 0 then [] else Joined(files, n - 1) + files[n - 1]
  }

  function PieceBytes(files: seq<seq<nat>>, p: Piece): seq<nat>
    requires InFile(Sizes(files), p)
  {
    files[p.file][p.offset..p.offset + p.nbytes]
  }

  predicate AllInFile(files: seq<seq<nat>>, pieces: seq<Piece>) {
    forall k :: 0 <= k < |pieces| ==> InFile(Sizes(files), pieces[k])
  }

  // The byte stream the pieces stand for.
  function PiecesBytes(files: seq<seq<nat>>, pieces: seq<Piece>): seq<nat>
    requires AllInFile(files, pieces)
  {
    if |pieces| == 0 then []
    else PiecesBytes(files, pieces[..|pieces| - 1]) + PieceBytes(files, pieces[|pieces| - 1])
  }

  lemma {:induction false} FileInJoined(files: seq<seq<nat>>, k: nat, n: nat)
    requires k < n <= |files|
    ensures var at := Before(Sizes(files), k);
      at + |files[k]| <= |Joined(files, n)| && Joined(files, n)[at..at + |files[k]|] == files[k]
  {
    if k < n - 1 {
      FileInJoined(files, k, n - 1);
      var at := Before(Sizes(files), k);
      assert Joined(files, n)[at..at + |files[k]|] == Joined(files, n - 1)[at..at + |files[k]|];
    }
  }

  lemma PieceInJoined(files: seq<seq<nat>>, p: Piece)
    requires InFile(Sizes(files), p)
    ensures var at := Before(Sizes(files), p.file) + p.offset;
      at + p.nbytes <= |Joined(files, |files|)| && Joined(files, |files|)[at..at + p.nbytes] == PieceBytes(files, p)
  {
    hide Joined;
    FileInJoined(files, p.file, |files|);
    var at := Before(Sizes(files), p.file);
    var whole := Joined(files, |files|);
    assert whole[at + p.offset..at + p.offset + p.nbytes]
        == whole[at..at + |files[p.file]|][p.offset..p.offset + p.nbytes];
  }

  lemma {:induction false} CoversInFile(files: seq<seq<nat>>, pieces: seq<Piece>, from: nat, size: nat)
    requires Covers(Sizes(files), pieces, from, size)
    ensures AllInFile(files, pieces)
  {
    hide InFile, Sizes, Before;
    if |pieces| > 0 {
      var n := |pieces| - 1;
      CoversInFile(files, pieces[..n], from, size - pieces[n].nbytes);
      forall k | 0 <= k < |pieces|
        ensures InFile(Sizes(files), pieces[k])
      {
        if k < n { assert pieces[..n][k] == pieces[k]; }
      }
    }
  }

  // Consecutive pieces read exactly their range of the joined files, so ranges taken one after the
  // other never share a byte.
  lemma {:induction false} PiecesAreSlice(files: seq<seq<nat>>, pieces: seq<Piece>, from: nat, size: nat)
    requires Covers(Sizes(files), pieces, from, size) && from + size <= |Joined(files, |files|)|
    ensures AllInFile(files, pieces)
    ensures PiecesBytes(files, pieces) == Joined(files, |files|)[from..from + size]
  {
    hide *;
    CoversInFile(files, pieces, from, size);
    var whole := Joined(files, |files|);
    if |pieces| > 0 {
      var n := |pieces| - 1;
      var p := pieces[n];
      LastCovered(files, pieces, from, size);
      PiecesAreSlice(files, pieces[..n], from, size - p.nbytes);
      PieceInJoined(files, p);
      SliceSplit(whole, from, from + size - p.nbytes, from + size);
    } else {
      NothingRead(files, whole, from, size, pieces);
    }
  }

  lemma LastCovered(files: seq<seq<nat>>, pieces: seq<Piece>, from: nat, size: nat)
    requires Covers(Sizes(files), pieces, from, size) && AllInFile(files, pieces) && |pieces| > 0
    ensures var n, p := |pieces| - 1, pieces[|pieces| - 1];
      && InFile(Sizes(files), p) && p.nbytes <= size
      && Before(Sizes(files), p.file) + p.offset == from + size - p.nbytes
      && Covers(Sizes(files), pieces[..n], from, size - p.nbytes)
      && AllInFile(files, pieces[..n])
      && PiecesBytes(files, pieces) == PiecesBytes(files, pieces[..n]) + PieceBytes(files, p)
  {
    hide InFile, Sizes, Before, PieceBytes;
  }

  lemma NothingRead(files: seq<seq<nat>>, whole: seq<nat>, from: nat, size: nat, pieces: seq<Piece>)
    requires Covers(Sizes(files), pieces, from, size) && AllInFile(files, pieces) && |pieces| == 0
    requires from + size <= |whole|
    ensures PiecesBytes(files, pieces) == whole[from..from + size]
  {
  }
}
