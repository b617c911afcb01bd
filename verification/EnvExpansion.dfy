/** References to variables in a container's environment, which Kubernetes documents on
    EnvVar.Value: $(NAME) stands for the value of NAME if there is one, and $$ for one
    dollar sign. The kubelet reads a value from left to right, piece by piece. */
module EnvExpansion {
  import opened Prelude

  type Mapping = string -> Option<string>

  function Closer(s: string): (n: nat)
    ensures n <= |s|
    ensures n < |s| ==> s[n] == ')'
    ensures forall i | 0 <= i < n :: s[i] != ')'
  {
    if s == "" || s[0] == ')' then 0 else 1 + Closer(s[1..])
  }

  /** The first piece: a character, two that begin with a dollar sign, or a reference. */
  function PieceLength(v: string): (n: nat)
    requires v != ""
    ensures 0 < n <= |v|
  {
    if v[0] != '$' || |v| == 1 then 1
    else if v[1] == '(' && Closer(v[2..]) < |v| - 2 then Closer(v[2..]) + 3
    else 2
  }

  predicate IsReference(piece: string) {
    |piece| >= 3
  }

  function NameIn(reference: string): string
    requires IsReference(reference)
  {
    reference[2..|reference| - 1]
  }

  function Output(piece: string, m: Mapping): string {
    if piece == "$$" then "$"
    else if IsReference(piece) && m(NameIn(piece)).Some? then m(NameIn(piece)).value
    else piece
  }

  function Expand(v: string, m: Mapping): string {
    if v == "" then ""
    else
      var n := PieceLength(v);
      Output(v[..n], m) + Expand(v[n..], m)
  }

  /** What expansion does, piece by piece: a doubled dollar sign is one, a reference to a
      variable is its value, one to nothing stays, and so does everything else. */
  lemma DoubledDollar(v: string, m: Mapping)
    ensures Expand("$$" + v, m) == "$" + Expand(v, m)
  {
    var w := "$$" + v;
    assert w[2..] == v && w[..2] == "$$";
  }

  lemma OtherFirst(c: char, v: string, m: Mapping)
    requires c != '$'
    ensures Expand([c] + v, m) == [c] + Expand(v, m)
  {
    assert ([c] + v)[1..] == v && ([c] + v)[..1] == [c];
  }

  lemma {:induction false} CloserAfter(name: string, after: string)
    requires ')' !in name
    ensures Closer(name + ")" + after) == |name|
  {
    if name != "" {
      assert (name + ")" + after)[1..] == name[1..] + ")" + after;
      CloserAfter(name[1..], after);
    }
  }

  lemma FirstReference(name: string, after: string)
    requires ')' !in name
    ensures var v := Reference(name) + after;
            PieceLength(v) == |name| + 3 && v[..|name| + 3] == Reference(name) && v[|name| + 3..] == after
  {
    var v := Reference(name) + after;
    assert v[2..] == name + ")" + after;
    CloserAfter(name, after);
  }

  function Reference(name: string): string {
    "$(" + name + ")"
  }

  lemma ReferenceFirst(name: string, v: string, m: Mapping)
    requires ')' !in name
    ensures Expand(Reference(name) + v, m)
            == (if m(name).Some? then m(name).value else Reference(name)) + Expand(v, m)
  {
    FirstReference(name, v);
    assert NameIn(Reference(name)) == name;
  }

  /** No $$, and no reference that expands to something else. */
  predicate Unexpanded(v: string, m: Mapping) {
    v == "" ||
    var piece := v[..PieceLength(v)];
    && piece != "$$"
    && (IsReference(piece) && m(NameIn(piece)).Some? ==> m(NameIn(piece)).value == piece)
    && Unexpanded(v[|piece|..], m)
  }

  lemma {:induction false} UnexpandedStays(v: string, m: Mapping)
    requires Unexpanded(v, m)
    ensures Expand(v, m) == v
  {
    if v != "" {
      UnexpandedStays(v[PieceLength(v)..], m);
    }
  }

  predicate FoundAt(s: string, t: string, i: nat) {
    i + |t| <= |s| && s[i..i + |t|] == t
  }

  predicate Contains(s: string, t: string) {
    exists i: nat | i <= |s| :: FoundAt(s, t, i)
  }

  /** No reference in the text is to a variable whose value has that same reference
      inside it. */
  predicate Tame(v: string, m: Mapping) {
    v == "" ||
    var piece := v[..PieceLength(v)];
    && (IsReference(piece) && m(NameIn(piece)).Some? && Contains(m(NameIn(piece)).value, piece) ==>
          m(NameIn(piece)).value == piece)
    && Tame(v[|piece|..], m)
  }

  /** What a piece is expanded to has the piece itself inside it only if it is the piece. */
  lemma OutputApart(v: string, m: Mapping, i: nat)
    requires v != "" && Tame(v, m) && FoundAt(Output(v[..PieceLength(v)], m), v[..PieceLength(v)], i)
    ensures Output(v[..PieceLength(v)], m) == v[..PieceLength(v)]
  {
    var piece := v[..PieceLength(v)];
    if IsReference(piece) {
      assert Contains(Output(piece, m), piece);
    }
  }

  lemma LongOutput(out: string, after: string, behind: string, piece: string, rest: string)
    requires out + after == behind + piece + rest && |out| >= |behind| + |piece|
    ensures FoundAt(out, piece, |behind|)
    ensures behind == "" && out == piece ==> after == rest
  {
    var all, i := out + after, |behind|;
    assert out[i..i + |piece|] == all[i..i + |piece|];
    assert (behind + piece + rest)[i..i + |piece|] == piece;
    assert all[|out|..] == after;
    assert behind == "" ==> (behind + piece + rest)[|piece|..] == rest;
  }

  lemma ShortOutput(out: string, after: string, behind: string, piece: string, rest: string)
    requires out + after == behind + piece + rest && |out| < |behind| + |piece|
    ensures after == (behind + piece)[|out|..] + rest
  {
    assert (out + after)[|out|..] == after;
    assert (behind + piece + rest)[|out|..] == (behind + piece)[|out|..] + rest;
  }

  lemma Advance(out: string, after: string, behind: string, piece: string, rest: string) returns (behind': string)
    requires out + after == behind + piece + rest
    requires forall i: nat | FoundAt(out, piece, i) :: out == piece
    ensures after == behind' + rest
    ensures behind' == "" ==> behind == "" && out == piece
  {
    if |out| >= |behind| + |piece| {
      LongOutput(out, after, behind, piece, rest);
      behind' := "";
    } else {
      ShortOutput(out, after, behind, piece, rest);
      behind' := (behind + piece)[|out|..];
    }
  }

  /** Reading on from a point where the output is behind the text by `behind`: either the
      first piece comes through and nothing was missing, or something is missing now. */
  lemma NextPiece(v: string, m: Mapping, behind: string) returns (behind': string)
    requires v != "" && Tame(v, m) && Expand(v, m) == behind + v
    ensures Expand(v[PieceLength(v)..], m) == behind' + v[PieceLength(v)..]
    ensures behind' == "" ==> behind == "" && Output(v[..PieceLength(v)], m) == v[..PieceLength(v)]
  {
    var piece, rest := v[..PieceLength(v)], v[PieceLength(v)..];
    forall i: nat | FoundAt(Output(piece, m), piece, i) ensures Output(piece, m) == piece {
      OutputApart(v, m, i);
    }
    assert behind + v == behind + piece + rest;
    behind' := Advance(Output(piece, m), Expand(rest, m), behind, piece, rest);
  }

  /** The expansion never catches up: what is missing once cannot be made up for. */
  lemma {:induction false} NeverCatchesUp(v: string, m: Mapping, behind: string)
    requires Tame(v, m) && behind != ""
    ensures Expand(v, m) != behind + v
  {
    if v != "" && Expand(v, m) == behind + v {
      var behind' := NextPiece(v, m, behind);
      NeverCatchesUp(v[PieceLength(v)..], m, behind');
    }
  }

  /** Unless a value the text refers to refers to itself, the text comes through as it is
      exactly if it has no $$ and no reference that expands to something else. */
  lemma {:induction false} ComesThrough(v: string, m: Mapping)
    requires Tame(v, m)
    ensures Expand(v, m) == v <==> Unexpanded(v, m)
  {
    if Unexpanded(v, m) {
      UnexpandedStays(v, m);
    } else if Expand(v, m) == v {
      assert "" + v == v;
      var behind := NextPiece(v, m, "");
      if behind == "" {
        assert "" + v[PieceLength(v)..] == v[PieceLength(v)..];
        ComesThrough(v[PieceLength(v)..], m);
      } else {
        NeverCatchesUp(v[PieceLength(v)..], m, behind);
      }
    }
  }

  /** A value that refers to itself can hide a loss: two dollar signs become one, and the
      reference after them puts one back. */
  lemma SelfReferenceHides(m: Mapping)
    requires m("A") == Some("$$(A)")
    ensures Expand("$$$(A)", m) == "$$$(A)" && !Unexpanded("$$$(A)", m) && !Tame("$$$(A)", m)
  {
    var v := "$$$(A)";
    assert v[2..] == "$(A)";
    assert Closer("A)") == 1;
    var w := "$(A)";
    assert w[2..] == "A)" && w[..4] == w && w[4..] == "" && w[2..3] == "A";
    assert Expand(w, m) == "$$(A)" + "";
    assert v[..2] == "$$";
    assert FoundAt("$$(A)", w, 1);
  }

  // ---------------------------------------------------------------------------
  // Whatever the variables hold
  // ---------------------------------------------------------------------------

  /** A dollar sign that begins something: another dollar sign, or a reference. */
  predicate ActiveAt(v: string, i: nat) {
    i + 1 < |v| && v[i] == '$' && (v[i + 1] == '$' || (v[i + 1] == '(' && ')' in v[i + 2..]))
  }

  predicate Inert(v: string) {
    forall i: nat | i < |v| :: !ActiveAt(v, i)
  }

  lemma {:induction false} InertUnexpanded(v: string, m: Mapping)
    requires Inert(v)
    ensures Unexpanded(v, m)
  {
    if v != "" {
      assert !ActiveAt(v, 0);
      var n := PieceLength(v);
      forall i: nat | i < |v[n..]| ensures !ActiveAt(v[n..], i) {
        assert !ActiveAt(v, n + i);
      }
      InertUnexpanded(v[n..], m);
    }
  }

  function AllEmpty(): Mapping {
    (name: string) => Some("")
  }

  lemma {:induction false} AllEmptyTame(v: string)
    ensures Tame(v, AllEmpty())
  {
    if v != "" {
      AllEmptyTame(v[PieceLength(v)..]);
    }
  }

  lemma {:induction false} UnexpandedInert(v: string)
    requires Unexpanded(v, AllEmpty())
    ensures Inert(v)
  {
    if v != "" {
      var n := PieceLength(v);
      UnexpandedInert(v[n..]);
      forall i: nat | i < |v| ensures !ActiveAt(v, i) {
        if i >= n {
          assert !ActiveAt(v[n..], i - n);
          assert n + (i - n) == i;
        } else if i == 1 {
          assert v[..2] != "$$";
        }
      }
    }
  }

  /** A text comes through whatever the variables hold exactly if no dollar sign in it
      begins anything. */
  lemma AlwaysComesThrough(v: string)
    ensures (forall m: Mapping :: Expand(v, m) == v) <==> Inert(v)
  {
    if Inert(v) {
      forall m: Mapping ensures Expand(v, m) == v {
        InertUnexpanded(v, m);
        UnexpandedStays(v, m);
      }
    } else {
      var m := AllEmpty();
      AllEmptyTame(v);
      ComesThrough(v, m);
      if Unexpanded(v, m) {
        UnexpandedInert(v);
      }
      assert Expand(v, m) != v;
    }
  }

  lemma NoDollarInert(v: string)
    requires '$' !in v
    ensures Inert(v)
  {
  }

  lemma ReplacedFirst(name: string, after: string, m: Mapping)
    requires '$' !in after && ')' !in name && m(name).Some?
    ensures Expand(Reference(name) + after, m) == m(name).value + after
  {
    ReferenceFirst(name, after, m);
    NoDollarInert(after);
    InertUnexpanded(after, m);
    UnexpandedStays(after, m);
  }

  lemma HeadFirst(before: string, v: string)
    requires before != ""
    ensures before + v == [before[0]] + (before[1..] + v)
  {
  }

  lemma {:induction false} ExpandAfter(before: string, v: string, m: Mapping)
    requires '$' !in before
    ensures Expand(before + v, m) == before + Expand(v, m)
  {
    if before == "" {
      assert "" + v == v;
    } else {
      ExpandAfter(before[1..], v, m);
      HeadFirst(before, v);
      HeadFirst(before, Expand(v, m));
      OtherFirst(before[0], before[1..] + v, m);
    }
  }

  /** A reference in a text without other dollar signs is replaced by the value. */
  lemma ReplacedBetween(before: string, name: string, after: string, m: Mapping)
    requires '$' !in before && '$' !in after && ')' !in name && m(name).Some?
    ensures Expand(before + (Reference(name) + after), m) == before + (m(name).value + after)
  {
    ExpandAfter(before, Reference(name) + after, m);
    ReplacedFirst(name, after, m);
  }
}
