/**
 * The `validate` middleware: runs a schema's checks, then either lets the
 * request through, forwards the first field's non-422 `ErrorWithStatus`, or
 * folds every failing field into one `EntityError`.
 */
module Validation {
  import opened Wrappers
  import opened Constants
  import opened Errors

  /** The fields that have at least one error. */
  function Paths(es: seq<FieldError>): set<string>
  {
    if |es| == 0 then {} else {es[0].path} + Paths(es[1..])
  }

  lemma {:induction false} PathsAppend(a: seq<FieldError>, b: seq<FieldError>)
    ensures Paths(a + b) == Paths(a) + Paths(b)
  {
    if |a| == 0 {
      assert a + b == b;
    } else {
      assert (a + b)[0] == a[0] && (a + b)[1..] == a[1..] + b;
      PathsAppend(a[1..], b);
    }
  }

  lemma {:induction false} PathsContainEach(es: seq<FieldError>)
    ensures forall j :: 0 <= j < |es| ==> es[j].path in Paths(es)
  {
    if |es| > 0 {
      PathsContainEach(es[1..]);
      assert forall j :: 1 <= j < |es| ==> es[j] == es[1..][j - 1];
    }
  }

  /** The first error recorded for field `p`. */
  function FirstWithPath(es: seq<FieldError>, p: string): (r: Option<FieldError>)
    ensures r.Some? <==> p in Paths(es)
    ensures r.Some? ==> r.value in es && r.value.path == p
  {
    if |es| == 0 then None
    else if es[0].path == p then Some(es[0])
    else FirstWithPath(es[1..], p)
  }

  /** The errors that are not about field `p`, in order. */
  function Without(es: seq<FieldError>, p: string): (r: seq<FieldError>)
    ensures |r| <= |es|
    ensures Paths(r) == Paths(es) - {p}
    ensures forall q :: q != p ==> FirstWithPath(r, q) == FirstWithPath(es, q)
  {
    if |es| == 0 then []
    else
      var rest := Without(es[1..], p);
      if es[0].path == p then rest
      else
        var r := [es[0]] + rest;
        assert r[0] == es[0] && r[1..] == rest;
        r
  }

  /**
   * `validationResult(req).mapped()`: the first error of each failing field,
   * in the order the fields first failed. Every failing field has exactly one
   * entry, and it is that field's first error.
   */
  function Mapped(es: seq<FieldError>): (m: seq<FieldError>)
    decreases |es|
    ensures |m| == 0 <==> |es| == 0
    ensures Paths(m) == Paths(es)
    ensures forall j :: 0 <= j < |m| ==> FirstWithPath(es, m[j].path) == Some(m[j])
    ensures forall i, j :: 0 <= i < j < |m| ==> m[i].path != m[j].path
  {
    if |es| == 0 then []
    else
      var rest := Mapped(Without(es[1..], es[0].path));
      MappedStep(es, rest);
      [es[0]] + rest
  }

  /** One step of `Mapped`: keep the head, then the mapped errors of the other fields. */
  lemma MappedStep(es: seq<FieldError>, rest: seq<FieldError>)
    requires |es| > 0
    requires Paths(rest) == Paths(es[1..]) - {es[0].path}
    requires forall j :: 0 <= j < |rest| ==>
      FirstWithPath(Without(es[1..], es[0].path), rest[j].path) == Some(rest[j])
    requires forall i, j :: 0 <= i < j < |rest| ==> rest[i].path != rest[j].path
    ensures Paths([es[0]] + rest) == Paths(es)
    ensures forall j :: 0 <= j < |[es[0]] + rest| ==> FirstWithPath(es, ([es[0]] + rest)[j].path) == Some(([es[0]] + rest)[j])
    ensures forall i, j :: 0 <= i < j < |[es[0]] + rest| ==> ([es[0]] + rest)[i].path != ([es[0]] + rest)[j].path
  {
    var m := [es[0]] + rest;
    assert m[0] == es[0] && m[1..] == rest;
    PathsContainEach(rest);
    forall j | 1 <= j < |m|
      ensures m[j].path != es[0].path
      ensures FirstWithPath(es, m[j].path) == Some(m[j])
    {
      assert m[j] == rest[j - 1];
    }
  }

  /** A field error that `validate` forwards on its own: a thrown error whose status is not 422. */
  predicate Forwardable(msg: FieldMsg)
  {
    msg.Thrown? && msg.error.status != UnprocessableEntity
  }

  /** The first forwardable entry. */
  function FirstForwardable(m: seq<FieldError>): (r: Option<nat>)
    ensures r.Some? ==> r.value < |m| && Forwardable(m[r.value].msg)
    ensures r.Some? ==> forall j :: 0 <= j < r.value ==> !Forwardable(m[j].msg)
    ensures r.None? <==> forall j :: 0 <= j < |m| ==> !Forwardable(m[j].msg)
  {
    if |m| == 0 then None
    else if Forwardable(m[0].msg) then Some(0)
    else match FirstForwardable(m[1..])
      case None => None
      case Some(k) => Some(k + 1)
  }

  /** Field name to that field's first error. */
  function ErrorMap(es: seq<FieldError>): (r: map<string, FieldError>)
    ensures r.Keys == Paths(es)
  {
    map p | p in Paths(es) :: FirstWithPath(es, p).value
  }

  /**
   * What `validate` passes to `next`: nothing when no field failed; the first
   * forwardable error, in mapped order, when there is one; otherwise one
   * `EntityError` with status 422 and an entry for every failing field.
   */
  function ValidateOutcome(es: seq<FieldError>): (r: Option<NextError>)
    ensures r.None? <==> |es| == 0
  {
    if |es| == 0 then None
    else
      var m := Mapped(es);
      match FirstForwardable(m)
      case Some(j) => Some(StatusError(m[j].msg.error))
      case None => Some(Invalid(NewEntityError(None, None, ErrorMap(es))))
  }

  /**
   * `validate` forwards an error on its own exactly when some field's first
   * error is a thrown error whose status is not 422, and what it forwards is
   * one of the errors the checks recorded.
   */
  lemma ValidateOutcomeForwards(es: seq<FieldError>)
    ensures var r := ValidateOutcome(es);
      r.Some? && r.value.StatusError? <==>
      exists j :: 0 <= j < |Mapped(es)| && Forwardable(Mapped(es)[j].msg)
    ensures var r := ValidateOutcome(es);
      r.Some? && r.value.StatusError? ==>
      r.value.error.status != UnprocessableEntity &&
      exists k :: 0 <= k < |es| && es[k].msg == Thrown(r.value.error)
  {
    if |es| > 0 {
      var m := Mapped(es);
      match FirstForwardable(m)
      case Some(j) =>
        assert FirstWithPath(es, m[j].path) == Some(m[j]);
        var k :| 0 <= k < |es| && es[k] == m[j];
      case None =>
    }
  }

  /**
   * When nothing is forwarded on its own, the one error is a 422 entity
   * error whose map has exactly the failing fields, each with its first error.
   */
  lemma ValidateOutcomeEntity(es: seq<FieldError>)
    ensures var r := ValidateOutcome(es);
      r.Some? && r.value.Invalid? ==>
      && r.value.entity.status == UnprocessableEntity
      && r.value.entity.message == ValidationError
      && r.value.entity.errors.Keys == Paths(es)
      && forall p :: p in r.value.entity.errors ==> Some(r.value.entity.errors[p]) == FirstWithPath(es, p)
  {
  }

  /** Copying the next mapped entry adds exactly its field to the copied fields. */
  lemma EntryKeysStep(mapped: seq<FieldError>, i: nat, errs: map<string, FieldError>)
    requires i < |mapped|
    requires errs.Keys == Paths(mapped[..i])
    ensures errs[mapped[i].path := mapped[i]].Keys == Paths(mapped[..i + 1])
  {
    var e := mapped[i];
    assert mapped[..i + 1] == mapped[..i] + [e];
    PathsAppend(mapped[..i], [e]);
    assert [e][1..] == [];
  }

  /** Copying a field's first error keeps the copied map a map of first errors. */
  lemma EntryValuesStep(es: seq<FieldError>, e: FieldError, errs: map<string, FieldError>)
    requires forall p :: p in errs ==> Some(errs[p]) == FirstWithPath(es, p)
    requires FirstWithPath(es, e.path) == Some(e)
    ensures forall p :: p in errs[e.path := e] ==> Some(errs[e.path := e][p]) == FirstWithPath(es, p)
  {
  }

  /** Once every mapped entry is copied and none was forwardable, the outcome is the entity error built from the copy. */
  lemma EntriesComplete(es: seq<FieldError>, errs: map<string, FieldError>)
    requires |es| > 0
    requires errs.Keys == Paths(Mapped(es))
    requires forall p :: p in errs ==> Some(errs[p]) == FirstWithPath(es, p)
    requires forall j :: 0 <= j < |Mapped(es)| ==> !Forwardable(Mapped(es)[j].msg)
    ensures ValidateOutcome(es) == Some(Invalid(EntityError(ValidationError, UnprocessableEntity, errs)))
  {
    assert errs == ErrorMap(es);
  }

  /** Meeting the first forwardable mapped entry, `validate` forwards it. */
  lemma ForwardsAt(es: seq<FieldError>, i: nat)
    requires i < |Mapped(es)| && Forwardable(Mapped(es)[i].msg)
    requires forall j :: 0 <= j < i ==> !Forwardable(Mapped(es)[j].msg)
    ensures ValidateOutcome(es) == Some(StatusError(Mapped(es)[i].msg.error))
  {
    var r := FirstForwardable(Mapped(es));
    assert r.Some?;
    assert r.value == i;
  }

  /**
   * The middleware itself, with the calls it makes to `next` as its result:
   * exactly one call, carrying what `ValidateOutcome` describes.
   */
  method Validate(es: seq<FieldError>) returns (calls: seq<Option<NextError>>)
    ensures |calls| == 1
    ensures calls[0] == ValidateOutcome(es)
  {
    calls := [];
    if |es| == 0 {
      calls := calls + [None];
      return;
    }
    var mapped := Mapped(es);
    var entity := NewEntityError(None, None, map[]);
    var i := 0;
    while i < |mapped|
      invariant 0 <= i <= |mapped|
      invariant calls == []
      invariant entity == EntityError(ValidationError, UnprocessableEntity, entity.errors)
      invariant entity.errors.Keys == Paths(mapped[..i])
      invariant forall p :: p in entity.errors ==> Some(entity.errors[p]) == FirstWithPath(es, p)
      invariant forall j :: 0 <= j < i ==> !Forwardable(mapped[j].msg)
    {
      var e := mapped[i];
      if Forwardable(e.msg) {
        ForwardsAt(es, i);
        calls := calls + [Some(StatusError(e.msg.error))];
        return;
      }
      assert FirstWithPath(es, e.path) == Some(e);
      EntryKeysStep(mapped, i, entity.errors);
      EntryValuesStep(es, e, entity.errors);
      entity := entity.(errors := entity.errors[e.path := e]);
      i := i + 1;
    }
    assert mapped[..i] == mapped;
    EntriesComplete(es, entity.errors);
    calls := calls + [Some(Invalid(entity))];
  }
}
