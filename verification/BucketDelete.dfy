/** Deleting many objects: `DeleteObjects` of catalog/s3.go, at most a thousand
    keys a call, with per-key failures collected. */
module BucketDelete {
  import opened Wrappers
  import opened CatalogStore
  import opened Purge
  import opened World

  const MAX_BATCH := 1000

  datatype Refusal = Refusal(key: string, code: string, message: string)

  datatype DeleteError = DeleteError(key: string, message: string)

  /** What one call to the service comes to: the keys it refused, or a failure
      after an arbitrary part of its work. */
  datatype Response = Quiet(refused: seq<Refusal>) | CallError(gone: set<string>, msg: string)

  function RefusedKeys(refused: seq<Refusal>): set<string> {
    set r | r in refused :: r.key
  }

  function FailedKeys(failed: seq<DeleteError>): set<string> {
    set e | e in failed :: e.key
  }

  function Explain(r: Refusal): DeleteError {
    DeleteError(r.key, if r.code != "" then r.code + ": " + r.message else r.message)
  }

  function Explanations(refused: seq<Refusal>): seq<DeleteError> {
    if refused == [] then [] else Explanations(refused[..|refused| - 1]) + [Explain(refused[|refused| - 1])]
  }

  /** What is left of the objects, the errors collected, and the failure that cut
      the calls short, if one did. */
  datatype Deletion = Deletion(objects: map<string, ObjectRef>, failed: seq<DeleteError>, err: Option<string>)

  /** The calls from number `call` on, for the keys still to go. */
  function Deleted(objects: map<string, ObjectRef>, keys: seq<string>, responses: nat -> Response, call: nat): Deletion
    decreases |keys|
  {
    if keys == [] then Deletion(objects, [], None)
    else
      var n := if |keys| > MAX_BATCH then MAX_BATCH else |keys|;
      match responses(call)
      case CallError(gone, msg) => Deletion(objects - gone * ToSet(keys[..n]), [], Some("delete objects: " + msg))
      case Quiet(refused) =>
        var rest := Deleted(objects - (ToSet(keys[..n]) - RefusedKeys(refused)), keys[n..], responses, call + 1);
        Deletion(rest.objects, Explanations(refused) + rest.failed, rest.err)
  }

  class Bucket {
    var objects: map<string, ObjectRef>

    constructor (objects: map<string, ObjectRef>)
      ensures this.objects == objects
    {
      this.objects := objects;
    }

    /** Call after call, until one fails as a whole. */
    method DeleteObjects(keys: seq<string>, responses: nat -> Response) returns (failed: seq<DeleteError>, err: Option<string>)
      modifies this
      ensures var end := Deleted(old(objects), keys, responses, 0);
        objects == end.objects && failed == end.failed && err == end.err
    {
      hide Deleted, Explanations, RefusedKeys;
      failed := [];
      ghost var whole := Deleted(objects, keys, responses, 0);
      var start := 0;
      var call := 0;
      assert keys[0..] == keys;
      while start < |keys|
        invariant 0 <= start <= |keys| && 0 <= call
        invariant Continues(whole, failed, Deleted(objects, keys[start..], responses, call))
      {
        var end := if start + MAX_BATCH <= |keys| then start + MAX_BATCH else |keys|;
        var batch := keys[start..end];
        OneCall(objects, keys, start, end, responses, call);
        match responses(call) {
          case CallError(gone, msg) =>
            objects := objects - gone * ToSet(batch);
            Joined(whole, failed, [], Deletion(objects, [], Some("delete objects: " + msg)));
            return failed, Some("delete objects: " + msg);
          case Quiet(refused) =>
            objects := objects - (ToSet(batch) - RefusedKeys(refused));
            var more := Explained(refused);
            Joined(whole, failed, more, Deleted(objects, keys[end..], responses, call + 1));
            failed := failed + more;
        }
        start := end;
        call := call + 1;
      }
      OneCall(objects, keys, start, start, responses, call);
      Joined(whole, failed, [], Deletion(objects, [], None));
      err := None;
    }

    /** The refusals of one call, with their codes in front of their messages. */
    method Explained(refused: seq<Refusal>) returns (more: seq<DeleteError>)
      ensures more == Explanations(refused)
      ensures |more| == |refused|
      ensures forall i :: 0 <= i < |refused| ==>
        more[i].key == refused[i].key && more[i].message == (if refused[i].code == "" then "" else refused[i].code + ": ") + refused[i].message
    {
      more := [];
      var i := 0;
      while i < |refused|
        invariant 0 <= i <= |refused| && more == Explanations(refused[..i])
        invariant |more| == i && forall j :: 0 <= j < i ==>
          more[j].key == refused[j].key && more[j].message == (if refused[j].code == "" then "" else refused[j].code + ": ") + refused[j].message
      {
        assert refused[..i + 1][..i] == refused[..i];
        more := more + [Explain(refused[i])];
        i := i + 1;
      }
      assert refused[..i] == refused;
    }
  }

  /** The deletion is the errors collected so far and then the rest. */
  ghost predicate Continues(whole: Deletion, failed: seq<DeleteError>, rest: Deletion) {
    whole.objects == rest.objects && whole.failed == failed + rest.failed && whole.err == rest.err
  }

  lemma Joined(whole: Deletion, failed: seq<DeleteError>, more: seq<DeleteError>, rest: Deletion)
    requires Continues(whole, failed, Deletion(rest.objects, more + rest.failed, rest.err))
    ensures Continues(whole, failed + more, rest)
    ensures rest.failed == [] && more == [] ==> whole == Deletion(rest.objects, failed, rest.err)
  {
  }

  ghost predicate CallFails(objects: map<string, ObjectRef>, keys: seq<string>, start: nat, end: nat, responses: nat -> Response, call: nat)
    requires start <= end <= |keys| && responses(call).CallError?
  {
    Deleted(objects, keys[start..], responses, call)
    == Deletion(objects - responses(call).gone * ToSet(keys[start..end]), [] + [], Some("delete objects: " + responses(call).msg))
  }

  ghost predicate CallAnswers(objects: map<string, ObjectRef>, keys: seq<string>, start: nat, end: nat, responses: nat -> Response, call: nat)
    requires start <= end <= |keys| && responses(call).Quiet?
  {
    var less := objects - (ToSet(keys[start..end]) - RefusedKeys(responses(call).refused));
    var next := Deleted(less, keys[end..], responses, call + 1);
    Deleted(objects, keys[start..], responses, call)
    == Deletion(next.objects, Explanations(responses(call).refused) + next.failed, next.err)
  }

  lemma OneCall(objects: map<string, ObjectRef>, keys: seq<string>, start: nat, end: nat, responses: nat -> Response, call: nat)
    requires start <= end == (if start + MAX_BATCH <= |keys| then start + MAX_BATCH else |keys|)
    ensures start == end ==> Deleted(objects, keys[start..], responses, call) == Deletion(objects, [] + [], None)
    ensures start < end && responses(call).CallError? ==> CallFails(objects, keys, start, end, responses, call)
    ensures start < end && responses(call).Quiet? ==> CallAnswers(objects, keys, start, end, responses, call)
  {
    hide Explanations, RefusedKeys;
    if start < end {
      assert keys[start..][..end - start] == keys[start..end] && keys[start..][end - start..] == keys[end..];
    }
  }

  /** One call: of the first thousand keys exactly those refused stay, or, when the
      call fails, exactly those it had not got to; nothing comes after a failure. */
  lemma CallMeans(objects: map<string, ObjectRef>, keys: seq<string>, responses: nat -> Response, call: nat, k: string)
    requires keys != [] && k in objects
    ensures var first := keys[..if |keys| > 1000 then 1000 else |keys|];
      var end := Deleted(objects, keys, responses, call);
      && (responses(call).CallError? ==>
            && (k in end.objects <==> !(k in first && k in responses(call).gone))
            && end.failed == [] && end.err == Some("delete objects: " + responses(call).msg))
      && (responses(call).Quiet? && |keys| <= 1000 ==>
            && (k in end.objects <==> k !in keys || exists r :: r in responses(call).refused && r.key == k)
            && end.err == None)
      && (responses(call).Quiet? && |keys| > 1000 && k !in keys[1000..] && k in first ==>
            (k in end.objects <==> exists r :: r in responses(call).refused && r.key == k))
  {
    var n := if |keys| > 1000 then 1000 else |keys|;
    assert |keys| <= 1000 ==> keys[..n] == keys && keys[n..] == [];
    if responses(call).Quiet? && |keys| > 1000 {
      var less := objects - (ToSet(keys[..1000]) - RefusedKeys(responses(call).refused));
      DeletedMeans(less, keys[1000..], responses, call + 1);
    }
  }

  lemma OneRefusal(refused: seq<Refusal>, r: Refusal)
    ensures RefusedKeys(refused + [r]) == RefusedKeys(refused) + {r.key}
    ensures FailedKeys([Explain(r)]) == {r.key}
  {
    assert r in refused + [r];
  }

  lemma {:induction false} ExplanationKeys(refused: seq<Refusal>)
    ensures FailedKeys(Explanations(refused)) == RefusedKeys(refused)
  {
    hide FailedKeys, RefusedKeys, Explain;
    if refused == [] {
      NoKeys();
    } else {
      var n := |refused| - 1;
      ExplanationKeys(refused[..n]);
      FailedAppend(Explanations(refused[..n]), [Explain(refused[n])]);
      assert refused == refused[..n] + [refused[n]];
      OneRefusal(refused[..n], refused[n]);
    }
  }

  lemma NoKeys()
    ensures FailedKeys([]) == {} && RefusedKeys([]) == {}
  {
  }

  lemma FailedAppend(a: seq<DeleteError>, b: seq<DeleteError>)
    ensures FailedKeys(a + b) == FailedKeys(a) + FailedKeys(b)
  {
  }

  /** Only the given keys are touched, and without an error every one of them that
      is not reported is gone, whether it was there before or not. */
  lemma {:induction false} DeletedMeans(objects: map<string, ObjectRef>, keys: seq<string>, responses: nat -> Response, call: nat)
    ensures var end := Deleted(objects, keys, responses, call);
      && end.objects.Keys <= objects.Keys && (forall k :: k in end.objects ==> end.objects[k] == objects[k])
      && (forall k :: k in objects && k !in keys ==> k in end.objects)
      && (end.err.None? ==> forall k :: k in keys && k !in FailedKeys(end.failed) ==> k !in end.objects)
    decreases |keys|
  {
    if keys != [] {
      var n := if |keys| > MAX_BATCH then MAX_BATCH else |keys|;
      assert keys == keys[..n] + keys[n..];
      if responses(call).Quiet? {
        var refused := responses(call).refused;
        var less := objects - (ToSet(keys[..n]) - RefusedKeys(refused));
        var rest := Deleted(less, keys[n..], responses, call + 1);
        DeletedMeans(less, keys[n..], responses, call + 1);
        ExplanationKeys(refused);
        FailedAppend(Explanations(refused), rest.failed);
      }
    }
  }

  // ---- The answers a purge meets ----

  /** The errors by key, as the purge reads them. */
  function ByKey(failed: seq<DeleteError>): map<string, string> {
    if failed == [] then map[] else ByKey(failed[..|failed| - 1])[failed[|failed| - 1].key := failed[|failed| - 1].message]
  }

  lemma {:induction false} ByKeyKeys(failed: seq<DeleteError>)
    ensures ByKey(failed).Keys == FailedKeys(failed)
  {
    if failed != [] {
      var n := |failed| - 1;
      ByKeyKeys(failed[..n]);
      assert failed == failed[..n] + [failed[n]];
      FailedAppend(failed[..n], [failed[n]]);
      assert FailedKeys([failed[n]]) == {failed[n].key};
    }
  }

  /** The answer that a delete call of up to a thousand keys gives a purge. */
  function AnswerOf(response: Response): Answer {
    match response
    case CallError(gone, msg) => CallFailed(gone, "delete objects: " + msg)
    case Quiet(refused) => Answered(ByKey(Explanations(refused)))
  }

  /** For the keys of one batch, which fit into one call, the objects, the errors
      by key and the failure are what the purge makes of that answer. */
  lemma AnswersPurge(w: World, live: seq<Doomed>, keys: seq<string>, responses: nat -> Response)
    requires 0 < |keys| <= MAX_BATCH && ToSet(keys) == KeySet(live)
    ensures var end := Deleted(w.bucket, keys, responses, 0);
      match AnswerOf(responses(0))
      case CallFailed(gone, msg) => end.err == Some(msg) && w.(bucket := end.objects) == EraseObjects(w, gone * KeySet(live))
      case Answered(refused) =>
        end.err == None && ByKey(end.failed) == refused && w.(bucket := end.objects) == EraseObjects(w, KeySet(live) - refused.Keys)
  {
    hide KeySet;
    assert keys[..|keys|] == keys && keys[|keys|..] == [];
    if responses(0).Quiet? {
      var refused := responses(0).refused;
      ExplanationKeys(refused);
      ByKeyKeys(Explanations(refused));
      assert Explanations(refused) + [] == Explanations(refused);
    }
  }
}
