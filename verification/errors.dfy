/** The `pkg/errors` cause chain.  Every node but `External` is a Causer that
    wraps exactly one cause; `External` stands for an error from outside the
    package (`fmt.Errorf`, `net/url`, `encoding/json`, an I/O or UUID failure),
    where every chain walk stops.  Stack capture and `fmt` formatting are not
    modelled: a `Based` node only records that a stack was taken. */
module Errors {
  import opened Wrappers
  import opened Dynamic

  datatype Error =
    | External(text: string)
    | Based(cause: Error)                                  // *based: carries a stack
    | Annotated(cause: Error, message: string)             // *withMessage
    | Coded(cause: Error, code: int)                       // withCode
    | Fielded(cause: Error, fields: map<string, Value>)    // withFields

  /** The interfaces of `interfaces.go` that `Is`, `As` and `Unwrap` look for. */
  datatype Iface = Causer | StackTracer | Coder | Fielder

  predicate Implements(e: Error, k: Iface) {
    match k
    case Causer => !e.External?
    case StackTracer => e.Based?
    case Coder => e.Coded?
    case Fielder => e.Fielded?
  }

  /** The nodes of the chain, outermost first: the node itself, then the
      nodes reached through `Cause()` until a non-Causer. */
  function Chain(e: Error): (c: seq<Error>)
    ensures |c| > 0 && c[0] == e
    ensures c[|c| - 1].External?
    ensures forall i :: 0 <= i < |c| - 1 ==> !c[i].External? && c[i + 1] == c[i].cause
  {
    if e.External? then [e] else [e] + Chain(e.cause)
  }

  /** `Error()`: only a message node contributes text; code, fields and
      based nodes report their cause's text unchanged. */
  function Text(e: Error): string {
    match e
    case External(t) => t
    case Based(c) => Text(c)
    case Annotated(c, m) => m + ": " + Text(c)
    case Coded(c, _) => Text(c)
    case Fielded(c, _) => Text(c)
  }

  /** `Cause()` of a Causer: exactly the wrapped error. */
  function Cause(e: Error): (r: Error)
    requires Implements(e, Causer)
    ensures e == Based(r) || (exists m :: e == Annotated(r, m))
         || (exists c :: e == Coded(r, c)) || (exists f :: e == Fielded(r, f))
  {
    e.cause
  }

  /** Whether some node of the chain implements `k` (the walk of `Is[T]`). */
  predicate Has(e: Error, k: Iface) {
    Implements(e, k) || (!e.External? && Has(e.cause, k))
  }

  /** The outermost node implementing `k` (the walk of `Unwrap[T]`). */
  function Find(e: Error, k: Iface): (r: Option<Error>)
    ensures r.Some? ==> Implements(r.value, k)
  {
    if Implements(e, k) then Some(e)
    else if e.External? then None
    else Find(e.cause, k)
  }

  /** `Is[T]`: nil is never a T. */
  function Is(err: Option<Error>, k: Iface): bool {
    err.Some? && Has(err.value, k)
  }

  /** `Unwrap[T]`: the zero value (None) for nil or when no node matches. */
  function Unwrap(err: Option<Error>, k: Iface): Option<Error> {
    if err.None? then None else Find(err.value, k)
  }

  /** `As[T]` with a non-nil destination: reports `Is[T]` and hands back `Unwrap[T]`. */
  function As(err: Option<Error>, k: Iface): (r: (bool, Option<Error>))
    ensures r.0 <==> r.1.Some?
    ensures r.0 ==> Implements(r.1.value, k)
  {
    if Is(err, k) then
      FindSome(err.value, k);
      (true, Unwrap(err, k))
    else (false, None)
  }

  /** `errors.New`, `errors.Error` and `errors.Errorf` (with the text already
      formatted): a based node over a plain error. */
  function New(message: string): (e: Error)
    ensures Text(e) == message && Has(e, StackTracer) && !Has(e, Coder) && !Has(e, Fielder)
  {
    Based(External(message))
  }

  /** The unexported `wrap`: adds a based node unless the chain already has one. */
  function AddStack(e: Error): (r: Error)
    ensures Has(r, StackTracer)
    ensures Has(e, StackTracer) ==> r == e
    ensures !Has(e, StackTracer) ==> Chain(r) == [Based(e)] + Chain(e)
    ensures Text(r) == Text(e)
  {
    if Has(e, StackTracer) then e else Based(e)
  }

  /** `Wrap` and `Wrapf` (the latter with its message already formatted). */
  function Wrap(err: Option<Error>, message: string): (r: Option<Error>)
    ensures err.None? <==> r.None?
    ensures err.Some? ==> Text(r.value) == message + ": " + Text(err.value)
    ensures err.Some? ==> Has(r.value, StackTracer)
    ensures err.Some? ==> r.value.Annotated? && r.value.message == message
  {
    if err.None? then None else Some(Annotated(AddStack(err.value), message))
  }

  /** `WithCode`. */
  function WithCode(err: Option<Error>, code: int): (r: Option<Error>)
    ensures err.None? <==> r.None?
    ensures err.Some? ==> Text(r.value) == Text(err.value) && Has(r.value, StackTracer)
  {
    if err.None? then None else Some(Coded(AddStack(err.value), code))
  }

  /** The in-place update of `WithField`: the outermost fields node gets the
      key; every other node is kept as it is. */
  function SetOutermostField(e: Error, key: string, value: Value): (r: Error)
    requires Has(e, Fielder)
    ensures Text(r) == Text(e)
    ensures |Chain(r)| == |Chain(e)|
    ensures Has(r, Fielder)
  {
    match e
    case Fielded(c, f) => Fielded(c, f[key := value])
    case Based(c) => Based(SetOutermostField(c, key, value))
    case Annotated(c, m) => Annotated(SetOutermostField(c, key, value), m)
    case Coded(c, code) => Coded(SetOutermostField(c, key, value), code)
  }

  /** `WithField`: mutates the outermost fields map of a chain that has one
      and returns the same error; otherwise wraps with a one-entry map. */
  function WithField(err: Option<Error>, key: string, value: Value): (r: Option<Error>)
    ensures err.None? <==> r.None?
    ensures err.Some? ==> Text(r.value) == Text(err.value) && Has(r.value, Fielder)
  {
    if err.None? then None
    else if As(err, Fielder).0 then Some(SetOutermostField(err.value, key, value))
    else Some(Fielded(AddStack(err.value), map[key := value]))
  }

  /** `GetErrCode`. */
  function GetErrCode(err: Option<Error>): int {
    match Unwrap(err, Coder)
    case Some(Coded(_, c)) => c
    case _ => 0
  }

  /** `GetFields`. */
  function GetFields(err: Option<Error>): map<string, Value> {
    match Unwrap(err, Fielder)
    case Some(Fielded(_, f)) => f
    case _ => map[]
  }

  // ---------------------------------------------------------------------
  // Properties of the chain walk

  lemma {:induction false} FindSome(e: Error, k: Iface)
    ensures Has(e, k) <==> Find(e, k).Some?
    ensures Find(e, k).Some? ==> Implements(Find(e, k).value, k)
  {
    if !Implements(e, k) && !e.External? {
      FindSome(e.cause, k);
    }
  }

  /** `Is[T]` holds exactly when some node of the chain is a T. */
  lemma {:induction false} IsIffOnChain(e: Error, k: Iface)
    ensures Is(Some(e), k) <==> exists i :: 0 <= i < |Chain(e)| && Implements(Chain(e)[i], k)
  {
    if !e.External? {
      IsIffOnChain(e.cause, k);
      var c := Chain(e);
      assert c == [e] + Chain(e.cause);
      if Has(e.cause, k) {
        var i :| 0 <= i < |Chain(e.cause)| && Implements(Chain(e.cause)[i], k);
        assert c[i + 1] == Chain(e.cause)[i];
      }
      if exists i :: 0 <= i < |c| && Implements(c[i], k) {
        var i :| 0 <= i < |c| && Implements(c[i], k);
        if i > 0 {
          assert c[i] == Chain(e.cause)[i - 1];
        }
      }
    }
  }

  /** `Unwrap[T]` hands back the OUTERMOST node of the chain that is a T. */
  lemma {:induction false} FindIsOutermost(e: Error, k: Iface)
    ensures Find(e, k).Some? ==>
      exists i :: 0 <= i < |Chain(e)| && Chain(e)[i] == Find(e, k).value && Implements(Chain(e)[i], k)
        && forall j :: 0 <= j < i ==> !Implements(Chain(e)[j], k)
    ensures Find(e, k).None? ==> forall i :: 0 <= i < |Chain(e)| ==> !Implements(Chain(e)[i], k)
  {
    if Implements(e, k) {
      assert Chain(e)[0] == e;
    } else if !e.External? {
      FindIsOutermost(e.cause, k);
      var c := Chain(e);
      assert c == [e] + Chain(e.cause);
      if Find(e.cause, k).Some? {
        var i :| 0 <= i < |Chain(e.cause)| && Chain(e.cause)[i] == Find(e.cause, k).value
          && Implements(Chain(e.cause)[i], k) && forall j :: 0 <= j < i ==> !Implements(Chain(e.cause)[j], k);
        assert c[i + 1] == Chain(e.cause)[i];
        forall j | 0 <= j < i + 1 ensures !Implements(c[j], k) {
          if j > 0 {
            assert c[j] == Chain(e.cause)[j - 1];
          }
        }
      } else {
        forall i | 0 <= i < |c| ensures !Implements(c[i], k) {
          if i > 0 {
            assert c[i] == Chain(e.cause)[i - 1];
          }
        }
      }
    }
  }

  /** `GetErrCode` returns the code of the outermost code node, 0 if none. */
  lemma GetErrCodeOutermost(e: Error)
    ensures GetErrCode(Some(e)) != 0 ==>
      exists i :: (0 <= i < |Chain(e)| && Chain(e)[i].Coded? && Chain(e)[i].code == GetErrCode(Some(e))
                   && forall j :: 0 <= j < i ==> !Chain(e)[j].Coded?)
    ensures (forall i :: 0 <= i < |Chain(e)| ==> !Chain(e)[i].Coded?) ==> GetErrCode(Some(e)) == 0
  {
    FindIsOutermost(e, Coder);
    FindSome(e, Coder);
  }

  /** `GetFields` returns the map of the outermost fields node, the empty
      map if none. */
  lemma GetFieldsOutermost(e: Error)
    ensures GetFields(Some(e)) != map[] ==>
      exists i :: (0 <= i < |Chain(e)| && Chain(e)[i].Fielded? && Chain(e)[i].fields == GetFields(Some(e))
                   && forall j :: 0 <= j < i ==> !Chain(e)[j].Fielded?)
    ensures (forall i :: 0 <= i < |Chain(e)| ==> !Chain(e)[i].Fielded?) ==> GetFields(Some(e)) == map[]
  {
    FindIsOutermost(e, Fielder);
    FindSome(e, Fielder);
  }

  /** On an optional error: `Is[T]` holds exactly when `Unwrap[T]` hands
      back a T; a code or a non-empty field map is only reported by a chain
      that has such a node; nil is nothing and reports nothing. */
  lemma UnwrapReports(err: Option<Error>, k: Iface)
    ensures Is(err, k) <==> Unwrap(err, k).Some?
    ensures Unwrap(err, k).Some? ==> Implements(Unwrap(err, k).value, k)
    ensures GetErrCode(err) != 0 ==> Is(err, Coder)
    ensures GetFields(err) != map[] ==> Is(err, Fielder)
    ensures err.None? ==> !Is(err, k) && GetErrCode(err) == 0 && GetFields(err) == map[]
  {
    if err.Some? {
      FindSome(err.value, k);
      FindSome(err.value, Coder);
      FindSome(err.value, Fielder);
    }
  }

  /** The text of a chain ends with the text of the foreign error at its
      end, and is exactly that text when no node adds a message. */
  lemma {:induction false} TextEndsWithForeign(e: Error)
    ensures var c := Chain(e); var t := c[|c| - 1].text;
      |t| <= |Text(e)| && Text(e)[|Text(e)| - |t|..] == t
    ensures (forall i :: 0 <= i < |Chain(e)| ==> !Chain(e)[i].Annotated?) ==> Text(e) == Chain(e)[|Chain(e)| - 1].text
  {
    if !e.External? {
      TextEndsWithForeign(e.cause);
      var c := Chain(e);
      assert c == [e] + Chain(e.cause);
      assert c[|c| - 1] == Chain(e.cause)[|Chain(e.cause)| - 1];
      if forall i :: 0 <= i < |c| ==> !c[i].Annotated? {
        forall i | 0 <= i < |Chain(e.cause)| ensures !Chain(e.cause)[i].Annotated? {
          assert c[i + 1] == Chain(e.cause)[i];
        }
      }
    }
  }

  /** A code attached by `WithCode` is what `GetErrCode` reports, whatever
      codes the wrapped chain already carries. */
  lemma WithCodeIsOutermost(e: Error, code: int)
    ensures GetErrCode(WithCode(Some(e), code)) == code
  {
  }

  /** Annotating never changes the code the chain reports. */
  lemma AnnotationsKeepCode(e: Error, message: string, key: string, value: Value)
    ensures GetErrCode(Wrap(Some(e), message)) == GetErrCode(Some(e))
    ensures GetErrCode(WithField(Some(e), key, value)) == GetErrCode(Some(e))
  {
    WrapKeepsCode(e, message);
    WithFieldKeepsCode(e, key, value);
  }

  lemma WrapKeepsCode(e: Error, message: string)
    ensures GetErrCode(Wrap(Some(e), message)) == GetErrCode(Some(e))
  {
    assert Find(Based(e), Coder) == Find(e, Coder);
    assert Find(Wrap(Some(e), message).value, Coder) == Find(AddStack(e), Coder) == Find(e, Coder);
  }

  lemma WithFieldKeepsCode(e: Error, key: string, value: Value)
    ensures GetErrCode(WithField(Some(e), key, value)) == GetErrCode(Some(e))
  {
    if Has(e, Fielder) {
      SetFieldKeepsCode(e, key, value);
    } else {
      assert Find(Based(e), Coder) == Find(e, Coder);
      assert Find(WithField(Some(e), key, value).value, Coder) == Find(AddStack(e), Coder);
    }
  }

  lemma {:induction false} SetFieldKeepsCode(e: Error, key: string, value: Value)
    requires Has(e, Fielder)
    ensures GetErrCode(Some(SetOutermostField(e, key, value))) == GetErrCode(Some(e))
  {
    match e
    case Fielded(c, f) =>
    case Based(c) => SetFieldKeepsCode(c, key, value);
    case Annotated(c, m) => SetFieldKeepsCode(c, key, value);
    case Coded(c, code) =>
  }

  /** `GetFields` after `WithField` is the previous outermost map plus the key. */
  lemma {:induction false} WithFieldUpdatesOutermostMap(e: Error, key: string, value: Value)
    ensures GetFields(WithField(Some(e), key, value)) == GetFields(Some(e))[key := value]
  {
    FindSome(e, Fielder);
    if Has(e, Fielder) {
      SetFieldFindsUpdated(e, key, value);
    } else {
      FindIsOutermost(e, Fielder);
    }
  }

  lemma {:induction false} SetFieldFindsUpdated(e: Error, key: string, value: Value)
    requires Has(e, Fielder)
    ensures Find(e, Fielder).Some? && Find(e, Fielder).value.Fielded?
    ensures Find(SetOutermostField(e, key, value), Fielder)
         == Some(Fielded(Find(e, Fielder).value.cause, Find(e, Fielder).value.fields[key := value]))
  {
    match e
    case Fielded(c, f) =>
    case Based(c) => SetFieldFindsUpdated(c, key, value);
    case Annotated(c, m) => SetFieldFindsUpdated(c, key, value);
    case Coded(c, code) => SetFieldFindsUpdated(c, key, value);
  }

  /** `WithField` on a chain that already has a fields node adds no node:
      the result is the same chain with only that node's map changed. */
  lemma WithFieldAddsNoNode(e: Error, key: string, value: Value)
    requires Has(e, Fielder)
    ensures |Chain(WithField(Some(e), key, value).value)| == |Chain(e)|
  {
  }

  /** The chain `errors_example.go` builds: fields 5 inside code 5 inside
      code 2, then a second field added in place. */
  function NestedExample(): Option<Error> {
    var inner := WithField(Wrap(Some(External("my message")), "test 5 error"), "filed5", Int(55555));
    WithField(WithCode(WithCode(inner, 5), 2), "filed2", Int(22))
  }

  /** The nodes of that chain. */
  lemma NestedExampleChain()
    ensures NestedExample() == Some(Coded(Coded(Fielded(Annotated(Based(External("my message")), "test 5 error"),
                                                     map["filed5" := Int(55555), "filed2" := Int(22)]), 5), 2))
  {
    var plain := External("my message");
    var wrapped := Annotated(Based(plain), "test 5 error");
    assert Wrap(Some(plain), "test 5 error") == Some(wrapped);
    assert !Has(wrapped, Fielder);
    var inner := Fielded(wrapped, map["filed5" := Int(55555)]);
    assert WithField(Some(wrapped), "filed5", Int(55555)) == Some(inner);
    assert Has(inner, StackTracer);
    var coded := Coded(Coded(inner, 5), 2);
    assert WithCode(WithCode(Some(inner), 5), 2) == Some(coded);
    assert Has(coded, Fielder);
  }

  /** The outer code wins, both fields land in the one fields map, and the
      text is the message over the cause. */
  lemma NestedCodeExample()
    ensures GetErrCode(NestedExample()) == 2
    ensures GetFields(NestedExample()) == map["filed5" := Int(55555), "filed2" := Int(22)]
    ensures Text(NestedExample().value) == "test 5 error: my message"
  {
    NestedExampleChain();
    NestedChainReads(NestedExample().value);
  }

  lemma NestedChainReads(e: Error)
    requires e == Coded(Coded(Fielded(Annotated(Based(External("my message")), "test 5 error"),
                                      map["filed5" := Int(55555), "filed2" := Int(22)]), 5), 2)
    ensures GetErrCode(Some(e)) == 2
    ensures GetFields(Some(e)) == map["filed5" := Int(55555), "filed2" := Int(22)]
    ensures Text(e) == "test 5 error: my message"
  {
  }
}
