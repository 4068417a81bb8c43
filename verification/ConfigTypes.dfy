/** The values the configuration surfaces exchange. */
module ConfigTypes {
  datatype Channel = Channel(id: string, caption: string, kind: string, enabled: bool, config: map<string, string>)

  datatype Profile = Profile(id: string, name: string, token: string, defaults: seq<string>)

  /** A complete desired state. */
  datatype Payload = Payload(channels: seq<Channel>, profiles: seq<Profile>)

  /** The config keys each known channel type requires when enabled. */
  type Registry = map<string, seq<string>>

  function ChannelId(c: Channel): string { c.id }

  function ProfileId(p: Profile): string { p.id }

  /** No two entries of the list have the same id. */
  ghost predicate DistinctBy<T>(list: seq<T>, id: T -> string) {
    forall i, j :: 0 <= i < j < |list| ==> id(list[i]) != id(list[j])
  }

  /** The references that are among the ids, in their order. */
  function Within(refs: seq<string>, ids: set<string>): seq<string> {
    if refs == [] then []
    else (if refs[0] in ids then [refs[0]] else []) + Within(refs[1..], ids)
  }

  lemma {:induction false} WithinIs(refs: seq<string>, ids: set<string>)
    ensures forall r :: r in Within(refs, ids) <==> r in refs && r in ids
    ensures |Within(refs, ids)| <= |refs|
    ensures |Within(refs, ids)| == |refs| <==> Within(refs, ids) == refs
    ensures Within(refs, ids) == refs <==> forall r :: r in refs ==> r in ids
    decreases |refs|
  {
    if refs != [] {
      WithinIs(refs[1..], ids);
      assert refs == [refs[0]] + refs[1..];
    }
  }

  /** A filter: entry by entry, nothing reordered or merged. */
  lemma {:induction false} WithinConcat(a: seq<string>, b: seq<string>, ids: set<string>)
    ensures Within(a + b, ids) == Within(a, ids) + Within(b, ids)
    ensures |a| == 1 ==> Within(a, ids) == if a[0] in ids then a else []
    decreases |a|
  {
    if a == [] {
      assert a + b == b;
    } else {
      assert (a + b)[1..] == a[1..] + b;
      WithinConcat(a[1..], b, ids);
    }
  }
}
