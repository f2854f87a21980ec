/**
 The deep copy of a notation column.  Leaves (rest, note, chord, meter,
 clef, key) are returned as they are; a beam or tuplet has its elements
 copied one by one, in order, and is rebuilt through its constructor, so
 the constructor's validation runs again on the copy.  The validations are
 the same parameters the constructors take.
 */
module NotationCopy {
  import opened Errors
  import opened NotationColumn
  import opened NotationTuplet

  /** `copy_visitor`: a copy that succeeds is equal to the original, and a
      leaf is always copied as it is. */
  function Copy(c: Column, vb: BeamCheck, vt: TupletCheck): (r: Result<Column>)
    ensures r.Ok? ==> r.value == c
    ensures !c.Beam? && !c.Tuplet? ==> r == Ok(c)
    decreases c, 1
  {
    match c
    case Beam(es) =>
      var copied :- CopyElements(c, 0, vb, vt);
      assert copied == es[0..] == es;
      MakeBeam(copied, vb)
    case Tuplet(v, es) =>
      var copied :- CopyElements(c, 0, vb, vt);
      assert copied == es[0..] == es;
      MakeTuplet(v, copied, vt)
    case _ => Ok(c)
  }

  /** `std::transform` over the elements from position i on; the first
      element whose copy throws ends the copy. */
  function CopyElements(c: Column, i: nat, vb: BeamCheck, vt: TupletCheck): (r: Result<seq<Column>>)
    requires c.Beam? || c.Tuplet?
    requires i <= |c.elements|
    ensures r.Ok? ==> r.value == c.elements[i..]
    decreases c, 0, |c.elements| - i
  {
    if i == |c.elements| then Ok([])
    else
      assert c.elements[i..] == [c.elements[i]] + c.elements[i + 1..];
      var first :- Copy(c.elements[i], vb, vt);
      var others :- CopyElements(c, i + 1, vb, vt);
      Ok([first] + others)
  }

  /** Every beam and tuplet inside c passes its validation. */
  predicate Valid(c: Column, vb: BeamCheck, vt: TupletCheck)
    decreases c
  {
    match c
    case Beam(es) => vb(es).None? && forall e | e in es :: Valid(e, vb, vt)
    case Tuplet(v, es) => vt(v, es).None? && forall e | e in es :: Valid(e, vb, vt)
    case _ => true
  }

  /** A copy succeeds exactly when every nested beam and tuplet is valid,
      and then it is equal to the original. */
  lemma {:induction false} CopyIsIdentity(c: Column, vb: BeamCheck, vt: TupletCheck)
    ensures Copy(c, vb, vt).Ok? <==> Valid(c, vb, vt)
    ensures Copy(c, vb, vt).Ok? ==> Copy(c, vb, vt).value == c
    decreases c, 1
  {
    if c.Beam? || c.Tuplet? {
      CopyElementsIsIdentity(c, 0, vb, vt);
      assert c.elements[0..] == c.elements;
    }
  }

  lemma {:induction false} CopyElementsIsIdentity(c: Column, i: nat, vb: BeamCheck, vt: TupletCheck)
    requires c.Beam? || c.Tuplet?
    requires i <= |c.elements|
    ensures CopyElements(c, i, vb, vt).Ok? <==> forall e | e in c.elements[i..] :: Valid(e, vb, vt)
    ensures CopyElements(c, i, vb, vt).Ok? ==> CopyElements(c, i, vb, vt).value == c.elements[i..]
    decreases c, 0, |c.elements| - i
  {
    if i < |c.elements| {
      CopyIsIdentity(c.elements[i], vb, vt);
      CopyElementsIsIdentity(c, i + 1, vb, vt);
      assert c.elements[i..] == [c.elements[i]] + c.elements[i + 1..];
    }
  }

  /** Leaves are returned unchanged, whatever the validations say. */
  lemma LeavesUnchanged(c: Column, vb: BeamCheck, vt: TupletCheck)
    requires !c.Beam? && !c.Tuplet?
    ensures Copy(c, vb, vt) == Ok(c)
  {
  }

  /** A beam whose own elements pass but which fails its validation fails
      to copy with the validation's error. */
  lemma RevalidatedOnCopy(es: seq<Column>, vb: BeamCheck, vt: TupletCheck)
    requires forall e | e in es :: Valid(e, vb, vt)
    requires vb(es).Some?
    ensures Copy(Beam(es), vb, vt) == Err(vb(es).value)
  {
    CopyElementsIsIdentity(Beam(es), 0, vb, vt);
    assert es[0..] == es;
  }
}
