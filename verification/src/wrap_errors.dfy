/**
 * The error taxonomy of pkg/wrap_errors/errors.go.
 *
 * A Go `error` value is modelled by the datatype `Error`: a kind sentinel
 * (`ErrNotFound`, ...), a foreign error known only by its text, the driver's
 * "no rows" sentinel, a Postgres error, an error wrapped with `%w`, or an
 * `*AppError`. Unwrapping follows `Unwrap()`, so the `errors.Is` and
 * `errors.As` walks below are recursions over a finite chain.
 */
module WrapErrors {
  import opened Wrappers

  /** The kind sentinels of errors.go:8-15. */
  datatype Kind = NotFound | AlreadyExists | Validation | Unauthorized | Internal | UniqueViolation

  /** A Go error value. */
  datatype Error =
    | Sentinel(kind: Kind)
    | Plain(text: string)
    | NoRows
    | PgError(code: string, constraint: string, message: string)
    | Wrapped(text: string, inner: Error)
    | App(app: AppError)

  /** `*AppError`: the HTTP code, the message, the kind sentinel held in `Type`, and the cause `Err`. */
  datatype AppError = AppError(code: int, message: string, kind: Kind, cause: Option<Error>)

  /** The text of each kind sentinel (`errors.New(...)`). */
  function KindText(k: Kind): string {
    match k
    case NotFound => "not found"
    case AlreadyExists => "already exists"
    case Validation => "validation failed"
    case Unauthorized => "unauthorized"
    case Internal => "internal error"
    case UniqueViolation => "unique constraint violation"
  }

  /** `err.Error()`; for an `*AppError` this is its `Message`. */
  function Text(e: Error): string {
    match e
    case Sentinel(k) => KindText(k)
    case Plain(t) => t
    case NoRows => "no rows in result set"
    case PgError(code, _, message) => "ERROR: " + message + " (SQLSTATE " + code + ")"
    case Wrapped(t, _) => t
    case App(a) => a.message
  }

  /** `errors.Unwrap(err)`; for an `*AppError` this is its cause `Err`. */
  function Unwrap(e: Error): (r: Option<Error>)
    ensures r.Some? ==> r.value < e
  {
    match e
    case Wrapped(_, inner) => Some(inner)
    case App(a) => a.cause
    case _ => None
  }

  /** `New(message, errorType, code, err)`. */
  function New(message: string, kind: Kind, code: int, cause: Option<Error>): (e: Error)
    ensures e.App? && e.app.message == message && e.app.kind == kind
    ensures e.app.code == code && e.app.cause == cause
  {
    App(AppError(code, message, kind, cause))
  }

  function NotFoundErr(msg: string): Error { New(msg, NotFound, 404, None) }
  function AlreadyExistsErr(msg: string): Error { New(msg, AlreadyExists, 409, None) }
  function ValidationErr(msg: string): Error { New(msg, Validation, 400, None) }
  function UnauthorizedErr(msg: string): Error { New(msg, Unauthorized, 401, None) }

  /** `InternalErr(msg, err)`; a nil `err` is `None`. */
  function InternalErr(msg: string, cause: Option<Error>): Error { New(msg, Internal, 500, cause) }

  /** `UniqueViolationErr(message)`: no `Code`, and a cause made from the same message. */
  function UniqueViolationErr(message: string): Error {
    App(AppError(0, message, UniqueViolation, Some(Plain(message))))
  }

  /** The code and cause each constructor of errors.go:54-80 gives, by kind. */
  lemma ConstructorCodes(msg: string, cause: Option<Error>)
    ensures NotFoundErr(msg).app == AppError(404, msg, NotFound, None)
    ensures AlreadyExistsErr(msg).app == AppError(409, msg, AlreadyExists, None)
    ensures ValidationErr(msg).app == AppError(400, msg, Validation, None)
    ensures UnauthorizedErr(msg).app == AppError(401, msg, Unauthorized, None)
    ensures InternalErr(msg, cause).app == AppError(500, msg, Internal, cause)
    ensures UniqueViolationErr(msg).app.code == 0 && Text(UniqueViolationErr(msg)) == msg
    ensures Unwrap(UniqueViolationErr(msg)) == Some(Plain(msg)) && Text(Unwrap(UniqueViolationErr(msg)).value) == msg
  {
  }

  /**
   * `(*AppError).Is(target)`: a target `*AppError` matches when the kinds agree;
   * any other target matches when it is the receiver's own kind sentinel.
   */
  predicate AppIs(a: AppError, target: Error) {
    match target
    case App(t) => t.kind == a.kind
    case Sentinel(k) => k == a.kind
    case _ => false
  }

  /**
   * `errors.Is(err, target)` for a target that is a kind sentinel or a fresh
   * `*AppError` (never pointer-equal to anything in the chain): each error of
   * the chain is compared with the target, `*AppError`s through `AppIs`.
   */
  predicate ChainIs(e: Error, target: Error)
    requires target.Sentinel? || target.App?
    decreases e
  {
    (match e
     case Sentinel(k) => target == Sentinel(k)
     case App(a) => AppIs(a, target)
     case _ => false)
    || (Unwrap(e).Some? && ChainIs(Unwrap(e).value, target))
  }

  /** `errors.Is(err, ErrX)`, the common use. */
  predicate IsKind(e: Error, k: Kind) {
    ChainIs(e, Sentinel(k))
  }

  /** The chain of `e` as a sequence, `e` first. */
  function Chain(e: Error): (c: seq<Error>)
    ensures |c| >= 1 && c[0] == e
    decreases e
  {
    [e] + (if Unwrap(e).Some? then Chain(Unwrap(e).value) else [])
  }

  /** `errors.Is(err, pgx.ErrNoRows)`: the driver's sentinel is somewhere in the chain. */
  predicate IsNoRows(e: Error) {
    NoRows in Chain(e)
  }

  /** Whether a single error, not its chain, carries kind `k`. */
  predicate Carries(e: Error, k: Kind) {
    (e.Sentinel? && e.kind == k) || (e.App? && e.app.kind == k)
  }

  /** Some error of the chain of `e` carries kind `k`. */
  predicate InChain(e: Error, k: Kind) {
    exists i :: 0 <= i < |Chain(e)| && Carries(Chain(e)[i], k)
  }

  /** `IsKind` holds exactly when some error of the chain carries the kind. */
  lemma {:induction false} IsKindInChain(e: Error, k: Kind)
    ensures IsKind(e, k) <==> InChain(e, k)
    decreases e
  {
    var c := Chain(e);
    assert Carries(e, k) <==> (match e
      case Sentinel(k') => Sentinel(k) == Sentinel(k')
      case App(a) => AppIs(a, Sentinel(k))
      case _ => false);
    if Unwrap(e).Some? {
      var u := Unwrap(e).value;
      IsKindInChain(u, k);
      assert IsKind(e, k) <==> Carries(e, k) || IsKind(u, k);
      assert c == [e] + Chain(u);
      if IsKind(e, k) {
        if Carries(e, k) {
          assert Carries(c[0], k);
        } else {
          var j :| 0 <= j < |Chain(u)| && Carries(Chain(u)[j], k);
          assert c[j + 1] == Chain(u)[j];
        }
        assert InChain(e, k);
      }
      if InChain(e, k) {
        var i :| 0 <= i < |c| && Carries(c[i], k);
        if i > 0 {
          assert Chain(u)[i - 1] == c[i];
          assert InChain(u, k);
        }
        assert IsKind(e, k);
      }
    } else {
      assert IsKind(e, k) <==> Carries(e, k);
      assert c == [e];
      if InChain(e, k) {
        var i :| 0 <= i < |c| && Carries(c[i], k);
        assert i == 0;
      }
      if IsKind(e, k) {
        assert Carries(c[0], k);
      }
    }
  }

  /** No error of `c` is an `*AppError`. */
  predicate NoApp(c: seq<Error>) {
    forall i :: 0 <= i < |c| ==> !c[i].App?
  }

  /** `errors.As(err, &appErr)`: the first `*AppError` of the chain. */
  function AsApp(e: Error): (r: Option<AppError>)
    ensures r.Some? ==> IsKind(e, r.value.kind)
    ensures e.App? ==> r == Some(e.app)
    decreases e
  {
    if e.App? then Some(e.app)
    else if Unwrap(e).Some? then AsApp(Unwrap(e).value)
    else None
  }

  /**
   * `errors.As` finds nothing exactly when no error of the chain is an
   * `*AppError`, and otherwise finds the first one.
   */
  lemma {:induction false} AsAppFindsFirstApp(e: Error)
    ensures AsApp(e).None? <==> NoApp(Chain(e))
    ensures AsApp(e).Some? ==>
      exists k :: 0 <= k < |Chain(e)| && Chain(e)[k] == App(AsApp(e).value) && NoApp(Chain(e)[..k])
    decreases e
  {
    if e.App? {
      assert Chain(e)[0] == e && Chain(e)[..0] == [];
    } else if Unwrap(e).Some? {
      var u := Unwrap(e).value;
      AsAppFindsFirstApp(u);
      NoAppStep(e, u);
      if AsApp(u).Some? {
        FirstAppStep(e, u, AsApp(u).value);
      }
    } else {
      assert Chain(e) == [e];
    }
  }

  /** Past an error that is not an `*AppError`, the chain has one only if its cause's has. */
  lemma NoAppStep(e: Error, u: Error)
    requires !e.App? && Unwrap(e) == Some(u)
    ensures NoApp(Chain(e)) <==> NoApp(Chain(u))
  {
    var c, d := Chain(e), Chain(u);
    assert c == [e] + d;
    if NoApp(d) {
      forall i | 0 <= i < |c|
        ensures !c[i].App?
      {
        if i > 0 {
          assert c[i] == d[i - 1];
        }
      }
    }
    if NoApp(c) {
      forall i | 0 <= i < |d|
        ensures !d[i].App?
      {
        assert d[i] == c[i + 1];
      }
    }
  }

  /** Past an error that is not an `*AppError`, the first one of its cause's chain is the first one of its own. */
  lemma FirstAppStep(e: Error, u: Error, a: AppError)
    requires !e.App? && Unwrap(e) == Some(u)
    requires exists k :: 0 <= k < |Chain(u)| && Chain(u)[k] == App(a) && NoApp(Chain(u)[..k])
    ensures exists k :: 0 <= k < |Chain(e)| && Chain(e)[k] == App(a) && NoApp(Chain(e)[..k])
  {
    var c, d := Chain(e), Chain(u);
    assert c == [e] + d;
    var k :| 0 <= k < |d| && d[k] == App(a) && NoApp(d[..k]);
    assert c[k + 1] == App(a);
    var p, q := c[..k + 1], d[..k];
    assert p == [e] + q;
    forall i | 0 <= i < |p|
      ensures !p[i].App?
    {
      if i > 0 {
        assert p[i] == q[i - 1];
      }
    }
  }

  predicate IsNotFoundError(e: Error) { IsKind(e, NotFound) }
  predicate IsAlreadyExistsError(e: Error) { IsKind(e, AlreadyExists) }
  predicate IsValidationError(e: Error) { IsKind(e, Validation) }
  predicate IsUnauthorizedError(e: Error) { IsKind(e, Unauthorized) }
  predicate IsInternalError(e: Error) { IsKind(e, Internal) }

  /** `strings.Contains(s, sub)`. */
  predicate Contains(s: string, sub: string)
    decreases |s|
  {
    (|sub| <= |s| && s[..|sub|] == sub) || (|s| > 0 && Contains(s[1..], sub))
  }

  /** `sub` occurs in `s` at offset `i`, so `Contains` holds. */
  lemma {:induction false} ContainsAt(s: string, sub: string, i: nat)
    requires i + |sub| <= |s| && s[i..i + |sub|] == sub
    ensures Contains(s, sub)
    decreases i
  {
    if i > 0 {
      assert s[1..][i - 1..i - 1 + |sub|] == s[i..i + |sub|];
      ContainsAt(s[1..], sub, i - 1);
    }
  }

  /** `IsUniqueViolation(err)`; a nil error is `None`. */
  predicate IsUniqueViolation(e: Option<Error>) {
    e.Some? && (IsKind(e.value, UniqueViolation) || Contains(Text(e.value), "unique constraint"))
  }

  /** A unique-violation `*AppError` from `UniqueViolationErr` is recognised. */
  lemma UniqueViolationErrIsRecognised(msg: string)
    ensures IsUniqueViolation(Some(UniqueViolationErr(msg)))
  {
  }

  /** Where `Contains` holds, `sub` occurs at some offset. */
  lemma {:induction false} ContainsOffset(s: string, sub: string) returns (i: nat)
    requires Contains(s, sub)
    ensures i + |sub| <= |s| && s[i..i + |sub|] == sub
    decreases |s|
  {
    if |sub| <= |s| && s[..|sub|] == sub {
      i := 0;
    } else {
      var j := ContainsOffset(s[1..], sub);
      assert s[1..][j..j + |sub|] == s[j + 1..j + 1 + |sub|];
      i := j + 1;
    }
  }

  /** Text around a match does not hide it. */
  lemma ContainsInContext(pre: string, s: string, post: string, sub: string)
    requires Contains(s, sub)
    ensures Contains(pre + s + post, sub)
  {
    var i := ContainsOffset(s, sub);
    var t := pre + s + post;
    assert t[|pre| + i..|pre| + i + |sub|] == s[i..i + |sub|];
    ContainsAt(t, sub, |pre| + i);
  }

  /** A Postgres error whose message names a unique constraint is recognised by its text. */
  lemma PgUniqueViolationIsRecognised(code: string, constraint: string, message: string)
    requires Contains(message, "unique constraint")
    ensures IsUniqueViolation(Some(PgError(code, constraint, message)))
  {
    ContainsInContext("ERROR: ", message, " (SQLSTATE " + code + ")", "unique constraint");
    assert Text(PgError(code, constraint, message)) == "ERROR: " + message + (" (SQLSTATE " + code + ")");
  }

  /** Matching two `*AppError`s looks at their kinds only, never their messages or codes. */
  lemma {:induction false} IsComparesKindsOnly(e: Error, msg1: string, msg2: string)
    ensures ChainIs(NotFoundErr(msg1), NotFoundErr(msg2))
    ensures !ChainIs(InternalErr(msg1, None), NotFoundErr(msg2))
    ensures e.App? ==> (ChainIs(e, NotFoundErr(msg2)) <==> ChainIs(e, NotFoundErr(msg1)))
  {
    if e.App? {
      ChainMatchesKind(e, NotFoundErr(msg1), NotFoundErr(msg2));
    }
  }

  /** Two `*AppError` targets of the same kind are matched by exactly the same errors. */
  lemma {:induction false} ChainMatchesKind(e: Error, t1: Error, t2: Error)
    requires t1.App? && t2.App? && t1.app.kind == t2.app.kind
    ensures ChainIs(e, t1) <==> ChainIs(e, t2)
    decreases e
  {
    if Unwrap(e).Some? {
      ChainMatchesKind(Unwrap(e).value, t1, t2);
    }
  }

  /** A nil error is never a unique violation. */
  lemma NilIsNotUniqueViolation()
    ensures !IsUniqueViolation(None)
  {
  }
}
