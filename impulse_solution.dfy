/** `ImpulseSplitSolution`: the unknowns of one impulse stage. Every contact
    owns a 6-vector force `f[i]` and a 6-vector multiplier `mu[i]`; the
    active contacts' entries are also kept stacked, in contact order, in
    the buffers behind `f_stack()` and `mu_stack()`. A point contact
    stacks the upper three entries of its vector, a surface contact all
    six. The impulse status (which contacts are active, and their types)
    fixes `dimi()`, the length of both stacks. */
module ImpulseSolution {
  import opened Common

  type Vec6 = v: seq<real> | |v| == 6 witness [0.0, 0.0, 0.0, 0.0, 0.0, 0.0]

  const ZeroVec6: Vec6 := [0.0, 0.0, 0.0, 0.0, 0.0, 0.0]

  datatype ContactType = PointContact | SurfaceContact

  /** How many entries of a contact's 6-vector take part in the stack. */
  function ContactDim(c: ContactType): (r: nat)
    ensures r == 3 || r == 6
  {
    match c
    case PointContact => 3
    case SurfaceContact => 6
  }

  /** What `setImpulseStatus` reads from an `ImpulseStatus`. */
  datatype ImpulseStatus = ImpulseStatus(contactTypes: seq<ContactType>, isImpulseActive: seq<bool>)

  predicate Conforms(types: seq<ContactType>, active: seq<bool>, n: nat)
  {
    |types| == n && |active| == n
  }

  /** The stacked dimension of the active contacts among the first `m`. */
  function StackDim(types: seq<ContactType>, active: seq<bool>, m: nat): (r: nat)
    requires m <= |types| && m <= |active|
    ensures r <= 6 * m
  {
    if m == 0 then 0
    else StackDim(types, active, m - 1) + (if active[m - 1] then ContactDim(types[m - 1]) else 0)
  }

  lemma {:induction false} StackDimMonotone(types: seq<ContactType>, active: seq<bool>, m: nat, m': nat)
    requires m <= m' <= |types| && m' <= |active|
    ensures StackDim(types, active, m) <= StackDim(types, active, m')
  {
    if m < m' {
      StackDimMonotone(types, active, m, m' - 1);
    }
  }

  /** The stack is empty exactly when no contact is active: every active
      contact contributes at least three entries. */
  lemma {:induction false} StackDimZeroIff(types: seq<ContactType>, active: seq<bool>, m: nat)
    requires m <= |types| && m <= |active|
    ensures StackDim(types, active, m) == 0 <==> forall i | 0 <= i < m :: !active[i]
  {
    if m > 0 {
      StackDimZeroIff(types, active, m - 1);
    }
  }

  /** The stack `set_f_stack` (or `set_mu_stack`) writes for the first `m`
      contacts: the head of every active contact's vector, in order. */
  function Stacked(parts: seq<Vec6>, types: seq<ContactType>, active: seq<bool>, m: nat): (r: seq<real>)
    requires m <= |parts| && Conforms(types, active, |parts|)
    ensures |r| == StackDim(types, active, m)
  {
    if m == 0 then []
    else Stacked(parts, types, active, m - 1) +
         (if active[m - 1] then parts[m - 1][..ContactDim(types[m - 1])] else [])
  }

  /** What `set_f_vector` (or `set_mu_vector`) makes of the first `m`
      contact vectors: an active contact's head is read back from the
      stack, its tail and every inactive contact's vector are kept. */
  function Unstacked(stack: seq<real>, parts: seq<Vec6>, types: seq<ContactType>, active: seq<bool>, m: nat): (r: seq<Vec6>)
    requires m <= |parts| && Conforms(types, active, |parts|)
    requires StackDim(types, active, m) <= |stack|
    ensures |r| == m
  {
    if m == 0 then []
    else
      StackDimMonotone(types, active, m - 1, m);
      Unstacked(stack, parts, types, active, m - 1) +
      [UnstackedPart(stack, parts[m - 1], types[m - 1], active[m - 1], StackDim(types, active, m - 1))]
  }

  /** One contact's vector after unstacking, its segment starting at
      `begin`. */
  function UnstackedPart(stack: seq<real>, part: Vec6, c: ContactType, active: bool, begin: nat): Vec6
    requires active ==> begin + ContactDim(c) <= |stack|
  {
    if active then stack[begin..begin + ContactDim(c)] + part[ContactDim(c)..] else part
  }

  /** Stacking then unstacking gives back every vector: `set_f_vector`
      after `set_f_stack` leaves `f` as it was, whatever the contacts'
      activity (with none active the stack is empty). */
  lemma {:induction false} UnstackAfterStack(parts: seq<Vec6>, types: seq<ContactType>, active: seq<bool>, m: nat)
    requires m <= |parts| && Conforms(types, active, |parts|)
    ensures Unstacked(Stacked(parts, types, active, m), parts, types, active, m) == parts[..m]
  {
    if m > 0 {
      var st := Stacked(parts, types, active, m);
      var prev := Stacked(parts, types, active, m - 1);
      PrefixStacking(parts, types, active, m - 1, m);
      UnstackedPrefix(st, prev, parts, types, active, m - 1);
      UnstackAfterStack(parts, types, active, m - 1);
      var p := parts[m - 1];
      if active[m - 1] {
        var d, b := ContactDim(types[m - 1]), |prev|;
        assert st[b..b + d] == p[..d];
        assert p[..d] + p[d..] == p;
      }
      assert parts[..m] == parts[..m - 1] + [p];
    }
  }

  /** The stack of the first `m` contacts starts with the stack of the
      first `k`. */
  lemma {:induction false} PrefixStacking(parts: seq<Vec6>, types: seq<ContactType>, active: seq<bool>, k: nat, m: nat)
    requires k <= m <= |parts| && Conforms(types, active, |parts|)
    ensures StackDim(types, active, k) <= StackDim(types, active, m)
    ensures Stacked(parts, types, active, m)[..StackDim(types, active, k)] == Stacked(parts, types, active, k)
  {
    StackDimMonotone(types, active, k, m);
    if k < m {
      PrefixStacking(parts, types, active, k, m - 1);
      StackDimMonotone(types, active, k, m - 1);
      var whole := Stacked(parts, types, active, m);
      var prev := Stacked(parts, types, active, m - 1);
      assert whole[..|prev|] == prev;
      assert whole[..StackDim(types, active, k)] == prev[..StackDim(types, active, k)];
    }
  }

  /** Unstacking reads only the first `StackDim(m)` entries of the stack. */
  lemma {:induction false} UnstackedPrefix(stack: seq<real>, stack': seq<real>, parts: seq<Vec6>,
                                          types: seq<ContactType>, active: seq<bool>, m: nat)
    requires m <= |parts| && Conforms(types, active, |parts|)
    requires StackDim(types, active, m) <= |stack| && StackDim(types, active, m) <= |stack'|
    requires stack[..StackDim(types, active, m)] == stack'[..StackDim(types, active, m)]
    ensures Unstacked(stack, parts, types, active, m) == Unstacked(stack', parts, types, active, m)
  {
    if m > 0 {
      StackDimMonotone(types, active, m - 1, m);
      var d := StackDim(types, active, m - 1);
      assert stack[..d] == stack[..StackDim(types, active, m)][..d];
      assert stack'[..d] == stack'[..StackDim(types, active, m)][..d];
      UnstackedPrefix(stack, stack', parts, types, active, m - 1);
      if active[m - 1] {
        var e := d + ContactDim(types[m - 1]);
        assert stack[d..e] == stack[..StackDim(types, active, m)][d..e];
        assert stack'[d..e] == stack'[..StackDim(types, active, m)][d..e];
      }
    }
  }

  /** Unstacking then stacking gives back the stack: `set_f_stack` after
      `set_f_vector` leaves `f_stack()` as it was. */
  lemma {:induction false} StackAfterUnstack(stack: seq<real>, parts: seq<Vec6>, types: seq<ContactType>, active: seq<bool>, m: nat)
    requires m <= |parts| && Conforms(types, active, |parts|)
    requires |stack| == StackDim(types, active, m)
    ensures Stacked(Unstacked(stack, parts, types, active, m) + parts[m..], types, active, m) == stack
    decreases m
  {
    var parts' := Unstacked(stack, parts, types, active, m) + parts[m..];
    if m > 0 {
      var d := StackDim(types, active, m - 1);
      StackDimMonotone(types, active, m - 1, m);
      var parts'' := Unstacked(stack[..d], parts, types, active, m - 1) + parts[m - 1..];
      UnstackedPrefix(stack, stack[..d], parts, types, active, m - 1);
      StackAfterUnstack(stack[..d], parts, types, active, m - 1);
      assert parts'[..m - 1] == parts''[..m - 1];
      StackedPrefixOnly(parts', parts'', types, active, m - 1);
      if active[m - 1] {
        var e := d + ContactDim(types[m - 1]);
        assert parts'[m - 1][..ContactDim(types[m - 1])] == stack[d..e];
        assert stack == stack[..d] + stack[d..e];
      } else {
        assert stack == stack[..d];
      }
    }
  }

  /** Stacking the first `m` contacts reads only their vectors. */
  lemma {:induction false} StackedPrefixOnly(parts: seq<Vec6>, parts': seq<Vec6>, types: seq<ContactType>, active: seq<bool>, m: nat)
    requires m <= |parts| && m <= |parts'| && Conforms(types, active, |parts|) && |parts'| == |parts|
    requires parts[..m] == parts'[..m]
    ensures Stacked(parts, types, active, m) == Stacked(parts', types, active, m)
  {
    if m > 0 {
      assert parts[..m - 1] == parts[..m][..m - 1];
      assert parts'[..m - 1] == parts'[..m][..m - 1];
      assert parts[m - 1] == parts[..m][m - 1];
      assert parts'[m - 1] == parts'[..m][m - 1];
      StackedPrefixOnly(parts, parts', types, active, m - 1);
    }
  }

  /** Unstacking leaves the vectors of inactive contacts alone and the
      tails of point contacts too. */
  lemma {:induction false} UnstackKeepsInactive(stack: seq<real>, parts: seq<Vec6>, types: seq<ContactType>, active: seq<bool>, m: nat, i: nat)
    requires m <= |parts| && Conforms(types, active, |parts|)
    requires StackDim(types, active, m) <= |stack| && i < m
    ensures !active[i] ==> Unstacked(stack, parts, types, active, m)[i] == parts[i]
    ensures Unstacked(stack, parts, types, active, m)[i][ContactDim(types[i])..] == parts[i][ContactDim(types[i])..]
  {
    StackDimMonotone(types, active, m - 1, m);
    var r := Unstacked(stack, parts, types, active, m);
    var prev := Unstacked(stack, parts, types, active, m - 1);
    if i < m - 1 {
      UnstackKeepsInactive(stack, parts, types, active, m - 1, i);
      assert r[i] == prev[i];
    } else {
      assert r[i] == UnstackedPart(stack, parts[i], types[i], active[i], StackDim(types, active, i));
    }
  }

  /** `segment(begin) = segment` on a buffer; the rest of the buffer keeps
      its values. */
  method WriteSegment(buffer: array<real>, begin: nat, segment: seq<real>)
    requires begin + |segment| <= buffer.Length
    modifies buffer
    ensures buffer[..begin] == old(buffer[..begin])
    ensures buffer[begin..begin + |segment|] == segment
    ensures buffer[begin + |segment|..] == old(buffer[begin + |segment|..])
  {
    forall k | 0 <= k < |segment| {
      buffer[begin + k] := segment[k];
    }
  }

  /** The loop of `set_f_stack` and `set_mu_stack`: every active contact's
      head is copied to the buffer at the running offset, which then grows
      by the contact's dimension. Entries past the stack keep their values. */
  method StackInto(parts: seq<Vec6>, types: seq<ContactType>, active: seq<bool>, buffer: array<real>)
    requires Conforms(types, active, |parts|)
    requires StackDim(types, active, |parts|) <= buffer.Length
    modifies buffer
    ensures buffer[..StackDim(types, active, |parts|)] == Stacked(parts, types, active, |parts|)
    ensures buffer[StackDim(types, active, |parts|)..] == old(buffer[StackDim(types, active, |parts|)..])
  {
    ghost var n := |parts|;
    ghost var dim := StackDim(types, active, n);
    var segmentBegin := 0;
    var i := 0;
    while i < |parts|
      invariant 0 <= i <= n
      invariant segmentBegin == StackDim(types, active, i) <= dim
      invariant buffer[..segmentBegin] == Stacked(parts, types, active, i)
      invariant buffer[dim..] == old(buffer[dim..])
    {
      StackDimMonotone(types, active, i + 1, n);
      if active[i] {
        ghost var before := buffer[..segmentBegin];
        var d := ContactDim(types[i]);
        WriteSegment(buffer, segmentBegin, parts[i][..d]);
        assert buffer[..segmentBegin + d] == before + parts[i][..d] by {
          assert buffer[..segmentBegin + d] == buffer[..segmentBegin] + buffer[segmentBegin..segmentBegin + d];
        }
        assert buffer[dim..] == old(buffer[dim..]) by {
          assert buffer[dim..] == buffer[segmentBegin + d..][dim - (segmentBegin + d)..];
        }
        segmentBegin := segmentBegin + d;
      }
      i := i + 1;
    }
  }

  /** The loop of `set_f_vector` and `set_mu_vector`: every active
      contact's head is overwritten, in place, from the stack. */
  method UnstackFrom(stack: seq<real>, parts: seq<Vec6>, types: seq<ContactType>, active: seq<bool>) returns (r: seq<Vec6>)
    requires Conforms(types, active, |parts|)
    requires StackDim(types, active, |parts|) <= |stack|
    ensures r == Unstacked(stack, parts, types, active, |parts|)
  {
    r := parts;
    var segmentBegin := 0;
    var i := 0;
    while i < |parts|
      invariant 0 <= i <= |parts| && |r| == |parts|
      invariant segmentBegin == StackDim(types, active, i) <= StackDim(types, active, |parts|)
      invariant r == Unstacked(stack, parts, types, active, i) + parts[i..]
    {
      StackDimMonotone(types, active, i + 1, |parts|);
      ghost var prefix := Unstacked(stack, parts, types, active, i);
      assert r[i] == parts[i];
      var next := UnstackedPart(stack, r[i], types[i], active[i], segmentBegin);
      if active[i] {
        r := r[i := next];
        segmentBegin := segmentBegin + ContactDim(types[i]);
      }
      UnstackStep(prefix, next, parts, i);
      i := i + 1;
    }
  }

  /** Overwriting the element just past a prefix of `i` entries; an
      element already equal needs no write. */
  lemma UnstackStep<T>(prefix: seq<T>, x: T, parts: seq<T>, i: nat)
    requires |prefix| == i < |parts|
    ensures (prefix + parts[i..])[i := x] == prefix + [x] + parts[i + 1..]
    ensures parts[i] == x ==> prefix + parts[i..] == prefix + [x] + parts[i + 1..]
  {
    assert parts[i..] == [parts[i]] + parts[i + 1..];
  }

  function Max(a: real, b: real): real
  {
    if a < b then b else a
  }

  class ImpulseSplitSolution {
    const maxNumContacts: nat
    var q: seq<real>
    var v: seq<real>
    var dv: seq<real>
    var f: seq<Vec6>
    var lmd: seq<real>
    var gmm: seq<real>
    var beta: seq<real>
    var mu: seq<Vec6>
    /** The buffers behind `f_stack()` and `mu_stack()`, large enough for
        every contact stacked as a surface contact. */
    const fStackBuffer: array<real>
    const muStackBuffer: array<real>
    var contactTypes: seq<ContactType>
    var isImpulseActive: seq<bool>
    var dimi: nat

    ghost predicate Valid()
      reads this
    {
      |f| == maxNumContacts && |mu| == maxNumContacts &&
      Conforms(contactTypes, isImpulseActive, maxNumContacts) &&
      fStackBuffer.Length == 6 * maxNumContacts && muStackBuffer.Length == 6 * maxNumContacts &&
      fStackBuffer != muStackBuffer &&
      dimi == StackDim(contactTypes, isImpulseActive, maxNumContacts)
    }

    /** `f_stack()`: the head of the force buffer, `dimi()` long. */
    function FStack(): seq<real>
      reads this, fStackBuffer
      requires Valid()
    {
      fStackBuffer[..dimi]
    }

    /** `mu_stack()`: the head of the multiplier buffer, `dimi()` long. */
    function MuStack(): seq<real>
      reads this, muStackBuffer
      requires Valid()
    {
      muStackBuffer[..dimi]
    }

    /** A solution for a robot with `contactTypes.size()` contacts, all
        inactive and all vectors zero. */
    constructor (dimq: nat, dimv: nat, contactTypes: seq<ContactType>)
      ensures Valid() && maxNumContacts == |contactTypes| && this.contactTypes == contactTypes
      ensures isImpulseActive == Repeat(false, |contactTypes|) && dimi == 0
      ensures q == Zeros(dimq) && v == Zeros(dimv) && dv == Zeros(dimv)
      ensures lmd == Zeros(dimv) && gmm == Zeros(dimv) && beta == Zeros(dimv)
      ensures f == Repeat(ZeroVec6, |contactTypes|) && mu == Repeat(ZeroVec6, |contactTypes|)
      ensures fresh(fStackBuffer) && fresh(muStackBuffer)
    {
      var n := |contactTypes|;
      maxNumContacts := n;
      q, v, dv := Zeros(dimq), Zeros(dimv), Zeros(dimv);
      lmd, gmm, beta := Zeros(dimv), Zeros(dimv), Zeros(dimv);
      f, mu := Repeat(ZeroVec6, n), Repeat(ZeroVec6, n);
      fStackBuffer := new real[6 * n](_ => 0.0);
      muStackBuffer := new real[6 * n](_ => 0.0);
      this.contactTypes := contactTypes;
      isImpulseActive := Repeat(false, n);
      dimi := 0;
      new;
      StackDimZeroIff(contactTypes, Repeat(false, n), n);
    }

    /** `setImpulseStatus(impulse_status)`: adopts the status's contact
        types and activity, and `dimi()` becomes its stacked dimension.
        The vectors and the buffers keep their values. */
    method SetImpulseStatus(status: ImpulseStatus)
      requires Valid() && Conforms(status.contactTypes, status.isImpulseActive, maxNumContacts)
      modifies this
      ensures Valid()
      ensures contactTypes == status.contactTypes && isImpulseActive == status.isImpulseActive
      ensures dimi == StackDim(status.contactTypes, status.isImpulseActive, maxNumContacts)
      ensures q == old(q) && v == old(v) && dv == old(dv) && f == old(f)
      ensures lmd == old(lmd) && gmm == old(gmm) && beta == old(beta) && mu == old(mu)
    {
      contactTypes := status.contactTypes;
      isImpulseActive := status.isImpulseActive;
      dimi := StackDim(status.contactTypes, status.isImpulseActive, maxNumContacts);
    }

    /** `setImpulseStatus(other)`: the same, from another solution. */
    method SetImpulseStatusFrom(other: ImpulseSplitSolution)
      requires Valid() && other.Valid() && other.maxNumContacts == maxNumContacts
      modifies this
      ensures Valid()
      ensures contactTypes == old(other.contactTypes) && isImpulseActive == old(other.isImpulseActive)
      ensures dimi == old(other.dimi)
      ensures q == old(q) && v == old(v) && dv == old(dv) && f == old(f)
      ensures lmd == old(lmd) && gmm == old(gmm) && beta == old(beta) && mu == old(mu)
    {
      contactTypes := other.contactTypes;
      isImpulseActive := other.isImpulseActive;
      dimi := other.dimi;
    }

    /** `set_f_stack`: `f_stack()` becomes the stack of the active forces. */
    method SetFStack()
      requires Valid()
      modifies fStackBuffer
      ensures Valid() && FStack() == Stacked(f, contactTypes, isImpulseActive, maxNumContacts)
    {
      StackInto(f, contactTypes, isImpulseActive, fStackBuffer);
    }

    /** `set_f_vector`: the active forces are read back from `f_stack()`. */
    method SetFVector()
      requires Valid()
      modifies this
      ensures Valid()
      ensures contactTypes == old(contactTypes) && isImpulseActive == old(isImpulseActive) && dimi == old(dimi)
      ensures f == Unstacked(old(FStack()), old(f), contactTypes, isImpulseActive, maxNumContacts)
      ensures q == old(q) && v == old(v) && dv == old(dv) && mu == old(mu)
      ensures lmd == old(lmd) && gmm == old(gmm) && beta == old(beta)
    {
      f := UnstackFrom(FStack(), f, contactTypes, isImpulseActive);
    }

    /** `set_mu_stack`: `mu_stack()` becomes the stack of the active
        multipliers. */
    method SetMuStack()
      requires Valid()
      modifies muStackBuffer
      ensures Valid() && MuStack() == Stacked(mu, contactTypes, isImpulseActive, maxNumContacts)
    {
      StackInto(mu, contactTypes, isImpulseActive, muStackBuffer);
    }

    /** `set_mu_vector`: the active multipliers are read back from
        `mu_stack()`. */
    method SetMuVector()
      requires Valid()
      modifies this
      ensures Valid()
      ensures contactTypes == old(contactTypes) && isImpulseActive == old(isImpulseActive) && dimi == old(dimi)
      ensures mu == Unstacked(old(MuStack()), old(mu), contactTypes, isImpulseActive, maxNumContacts)
      ensures q == old(q) && v == old(v) && dv == old(dv) && f == old(f)
      ensures lmd == old(lmd) && gmm == old(gmm) && beta == old(beta)
    {
      mu := UnstackFrom(MuStack(), mu, contactTypes, isImpulseActive);
    }

    /** `dimi()`: zero exactly when no contact is active. */
    function Dimi(): (r: nat)
      reads this
      requires Valid()
      ensures r == StackDim(contactTypes, isImpulseActive, maxNumContacts)
      ensures r == 0 <==> forall i | 0 <= i < maxNumContacts :: !isImpulseActive[i]
    {
      StackDimZeroIff(contactTypes, isImpulseActive, maxNumContacts);
      dimi
    }

    /** `isImpulseActive()`: the activity of every contact. */
    function IsImpulseActive(): seq<bool>
      reads this
    {
      isImpulseActive
    }

    /** `isImpulseActive(contact_index)`: one entry of `isImpulseActive()`. */
    function IsImpulseActiveAt(contactIndex: nat): (r: bool)
      reads this
      requires Valid() && contactIndex < maxNumContacts
      ensures r == IsImpulseActive()[contactIndex]
    {
      isImpulseActive[contactIndex]
    }

    /** `copyPrimal(other)`: takes the other's impulse status and primal
        variables `q`, `v`, `dv` and `f`, and restacks `f`; the multipliers
        and their stack are left alone. */
    method CopyPrimal(other: ImpulseSplitSolution)
      requires Valid() && other.Valid() && other.maxNumContacts == maxNumContacts
      modifies this, fStackBuffer
      ensures Valid()
      ensures contactTypes == old(other.contactTypes) && isImpulseActive == old(other.isImpulseActive)
      ensures q == old(other.q) && v == old(other.v) && dv == old(other.dv) && f == old(other.f)
      ensures FStack() == Stacked(f, contactTypes, isImpulseActive, maxNumContacts)
      ensures lmd == old(lmd) && gmm == old(gmm) && beta == old(beta) && mu == old(mu)
      ensures muStackBuffer[..] == old(muStackBuffer[..])
    {
      SetImpulseStatusFrom(other);
      q, v, dv, f := other.q, other.v, other.dv, other.f;
      SetFStack();
    }

    /** `copyDual(other)`: takes the other's impulse status and multipliers
        `lmd`, `gmm`, `beta` and `mu`, and restacks `mu`; the primal
        variables and their stack are left alone. */
    method CopyDual(other: ImpulseSplitSolution)
      requires Valid() && other.Valid() && other.maxNumContacts == maxNumContacts
      modifies this, muStackBuffer
      ensures Valid()
      ensures contactTypes == old(other.contactTypes) && isImpulseActive == old(other.isImpulseActive)
      ensures lmd == old(other.lmd) && gmm == old(other.gmm) && beta == old(other.beta) && mu == old(other.mu)
      ensures MuStack() == Stacked(mu, contactTypes, isImpulseActive, maxNumContacts)
      ensures q == old(q) && v == old(v) && dv == old(dv) && f == old(f)
      ensures fStackBuffer[..] == old(fStackBuffer[..])
    {
      SetImpulseStatusFrom(other);
      lmd, gmm, beta, mu := other.lmd, other.gmm, other.beta, other.mu;
      SetMuStack();
    }

    /** `lagrangeMultiplierLinfNorm()`: the largest magnitude among the
        entries of `lmd`, `gmm`, `beta` and `mu_stack()` (zero when all are
        empty). */
    function LagrangeMultiplierLinfNorm(): (r: real)
      reads this, muStackBuffer
      requires Valid()
      ensures r >= 0.0
      ensures forall i | 0 <= i < |lmd| :: Abs(lmd[i]) <= r
      ensures forall i | 0 <= i < |gmm| :: Abs(gmm[i]) <= r
      ensures forall i | 0 <= i < |beta| :: Abs(beta[i]) <= r
      ensures forall i | 0 <= i < dimi :: Abs(MuStack()[i]) <= r
      ensures r == 0.0 || (exists i | 0 <= i < |lmd| :: Abs(lmd[i]) == r) ||
              (exists i | 0 <= i < |gmm| :: Abs(gmm[i]) == r) ||
              (exists i | 0 <= i < |beta| :: Abs(beta[i]) == r) ||
              (exists i | 0 <= i < dimi :: Abs(MuStack()[i]) == r)
    {
      var muNorm := if dimi > 0 then LInfNorm(MuStack()) else 0.0;
      Max(Max(LInfNorm(lmd), LInfNorm(gmm)), Max(LInfNorm(beta), muNorm))
    }
  }

  /** `set_f_stack` followed by `set_f_vector` leaves the forces as they
      were; the same holds for `mu`. */
  method StackThenUnstack(s: ImpulseSplitSolution)
    requires s.Valid()
    modifies s, s.fStackBuffer
    ensures s.Valid() && s.f == old(s.f)
  {
    s.SetFStack();
    s.SetFVector();
    UnstackAfterStack(old(s.f), s.contactTypes, s.isImpulseActive, s.maxNumContacts);
  }
}
