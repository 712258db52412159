// The id of a workflow, which is made from what was asked for.
module WorkflowIds {
  import opened Wrappers
  import opened Json

  // Planning takes nothing else into the id: neither the arguments of the tools nor the time.
  datatype Asked = Asked(query: string, sessionId: string, tenantId: Option<string>, toolNames: seq<string>,
    userId: string)

  function Names(xs: seq<string>): Json {
    Arr(seq(|xs|, i requires 0 <= i < |xs| => Str(xs[i])))
  }

  function Material(a: Asked): Json {
    Obj(map["query" := Str(a.query), "session_id" := Str(a.sessionId),
            "tenant_id" := (match a.tenantId case None => Null case Some(id) => Str(id)),
            "tool_names" := Names(a.toolNames), "user_id" := Str(a.userId)])
  }

  type Sha = string -> string

  // These two texts do not share the sixteen digits that are kept, unless they are the same.
  predicate TellsApart(sha: Sha, s: string, t: string) {
    |sha(s)| >= 16 && |sha(t)| >= 16 && (sha(s)[..16] == sha(t)[..16] ==> s == t)
  }

  // `_workflow_id`
  function WorkflowId(a: Asked, sha: Sha): string
    requires |sha(Dumps(Material(a), true))| >= 16
  {
    "wf-" + sha(Dumps(Material(a), true))[..16]
  }

  lemma MaterialIsInjective(a: Asked, b: Asked)
    requires Material(a) == Material(b)
    ensures a == b
  {
    var (x, y) := (Material(a).members, Material(b).members);
    assert x["query"] == y["query"] && x["session_id"] == y["session_id"] && x["user_id"] == y["user_id"];
    assert x["tenant_id"] == y["tenant_id"];
    assert x["tool_names"] == y["tool_names"];
    var (p, q) := (Names(a.toolNames).items, Names(b.toolNames).items);
    assert p == q;
    assert forall i :: 0 <= i < |a.toolNames| ==> p[i] == Str(a.toolNames[i]) && q[i] == Str(b.toolNames[i]);
    assert a.toolNames == b.toolNames;
  }

  // Two plannings write the same record exactly when the same user of the same session and tenant
  // asked the same question and it came to the same tools in the same order.
  lemma IdNamesWhatWasAsked(a: Asked, b: Asked, sha: Sha)
    requires TellsApart(sha, Dumps(Material(a), true), Dumps(Material(b), true))
    ensures WorkflowId(a, sha) == WorkflowId(b, sha) <==> a == b
  {
    var (s, t) := (Dumps(Material(a), true), Dumps(Material(b), true));
    assert WorkflowId(a, sha)[3..] == sha(s)[..16] && WorkflowId(b, sha)[3..] == sha(t)[..16];
    hide Dumps, Material;
    if WorkflowId(a, sha) == WorkflowId(b, sha) {
      assert s == t;
      DumpsIsInjective(Material(a), Material(b), true);
      MaterialIsInjective(a, b);
    }
  }

  predicate IsMaterial(j: Json, a: Asked) {
    j.Obj? && j.members.Keys == {"query", "session_id", "tenant_id", "tool_names", "user_id"} &&
    var m := j.members;
    && m["query"] == Str(a.query) && m["session_id"] == Str(a.sessionId) && m["user_id"] == Str(a.userId)
    && m["tenant_id"] == (if a.tenantId.Some? then Str(a.tenantId.value) else Null)
    && m["tool_names"].Arr? && |m["tool_names"].items| == |a.toolNames|
    && forall i :: 0 <= i < |a.toolNames| ==> m["tool_names"].items[i] == Str(a.toolNames[i])
  }

  // The id is made of sixteen digits of the digest of a text that says what was asked, and nothing else.
  lemma IdIsMadeOfWhatWasAsked(a: Asked, sha: Sha) returns (text: string)
    requires forall s: string :: |sha(s)| >= 16
    ensures Loads(text).Some? && IsMaterial(Loads(text).value, a)
    ensures WorkflowId(a, sha) == "wf-" + sha(text)[..16]
  {
    text := Dumps(Material(a), true);
    DumpsReadsBack(Material(a), true);
    hide Dumps, Loads;
    var names := Names(a.toolNames).items;
    assert forall i :: 0 <= i < |a.toolNames| ==> names[i] == Str(a.toolNames[i]);
  }
}
