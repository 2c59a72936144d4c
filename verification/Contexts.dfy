/** The handler's context.Context: internal/caller/caller.go and handlerContext of internal/caller/server.go. */
module Contexts {
  import opened Outcomes

  datatype Caller = Caller(subject: string, issuer: string)

  /** Context keys are compared by identity; CallerKey is the unexported contextKey{} of the caller package. */
  datatype Key = CallerKey | MetadataKey | OtherKey(id: nat)

  type Metadata = map<string, string>

  datatype Value = CallerValue(caller: Caller) | MetadataValue(metadata: Metadata) | OtherValue(id: nat)

  /** A context is an immutable chain of links of any length. */
  datatype Context =
    | Background
    | WithValue(parent: Context, key: Key, value: Value)
    | WithDeadline(parent: Context, deadline: int)

  /** ctx.Value(key): the innermost link with that key. */
  function Lookup(ctx: Context, key: Key): Option<Value> {
    match ctx
    case Background => None
    case WithDeadline(parent, _) => Lookup(parent, key)
    case WithValue(parent, k, v) => if k == key then Some(v) else Lookup(parent, key)
  }

  /** ctx.Deadline(): the earliest deadline of the chain. */
  function Deadline(ctx: Context): Option<int> {
    match ctx
    case Background => None
    case WithValue(parent, _, _) => Deadline(parent)
    case WithDeadline(parent, d) =>
      match Deadline(parent)
      case Some(earlier) => Some(if earlier < d then earlier else d)
      case None => Some(d)
  }

  /** What one layer of a chain holds. */
  datatype Layer = ValueLayer(key: Key, value: Value) | DeadlineLayer(deadline: int)

  /** The layers of a chain, the innermost first. */
  function Layers(ctx: Context): seq<Layer> {
    match ctx
    case Background => []
    case WithValue(parent, k, v) => [ValueLayer(k, v)] + Layers(parent)
    case WithDeadline(parent, d) => [DeadlineLayer(d)] + Layers(parent)
  }

  /** The chain with these layers. */
  function Layered(layers: seq<Layer>): Context {
    if layers == [] then Background
    else
      match layers[0]
      case ValueLayer(k, v) => WithValue(Layered(layers[1..]), k, v)
      case DeadlineLayer(d) => WithDeadline(Layered(layers[1..]), d)
  }

  /** A chain is its layers, so that statements on positions are statements on contexts. */
  lemma {:induction false} LayersAreTheChain(ctx: Context)
    ensures Layered(Layers(ctx)) == ctx
  {
    if !ctx.Background? {
      LayersAreTheChain(ctx.parent);
      assert Layers(ctx)[1..] == Layers(ctx.parent);
    }
  }

  lemma {:induction false} LayeredHasTheLayers(layers: seq<Layer>)
    ensures Layers(Layered(layers)) == layers
  {
    if layers != [] {
      LayeredHasTheLayers(layers[1..]);
    }
  }

  /** Layer i sets the key, and no layer further in does. */
  ghost predicate Innermost(layers: seq<Layer>, key: Key, i: int) {
    && 0 <= i < |layers|
    && layers[i].ValueLayer? && layers[i].key == key
    && forall j :: 0 <= j < i ==> layers[j].DeadlineLayer? || layers[j].key != key
  }

  ghost predicate Finds(layers: seq<Layer>, key: Key, v: Value) {
    exists i :: Innermost(layers, key, i) && layers[i].value == v
  }

  /** A lookup finds a value exactly when it is that of the innermost layer that sets the key, through any number of
      other layers, deadlines among them. */
  lemma {:induction false} LookupFindsInnermost(ctx: Context, key: Key, v: Value)
    ensures Lookup(ctx, key) == Some(v) <==> Finds(Layers(ctx), key, v)
  {
    if !ctx.Background? {
      LookupFindsInnermost(ctx.parent, key, v);
      FindsStep(Layers(ctx), key, v);
      assert Layers(ctx)[1..] == Layers(ctx.parent);
    }
  }

  lemma FindsStep(layers: seq<Layer>, key: Key, v: Value)
    requires layers != []
    ensures Finds(layers, key, v) <==>
            if layers[0].ValueLayer? && layers[0].key == key then layers[0].value == v else Finds(layers[1..], key, v)
  {
    if layers[0].ValueLayer? && layers[0].key == key {
      assert Innermost(layers, key, 0);
    } else if i :| Innermost(layers, key, i) && layers[i].value == v {
      assert forall j :: 0 <= j < i ==> layers[1..][j] == layers[j + 1];
      assert Innermost(layers[1..], key, i - 1);
    }
    if i :| Innermost(layers[1..], key, i) && layers[1..][i].value == v && !Innermost(layers, key, 0) {
      assert forall j :: 0 < j <= i + 1 ==> layers[j] == layers[1..][j - 1];
      assert Innermost(layers, key, i + 1);
    }
  }

  /** The deadline of a context is the least of its chain, wherever it is, and there is none exactly when no layer sets
      one. */
  lemma {:induction false} DeadlineIsLeast(ctx: Context)
    ensures Deadline(ctx).Some? ==> DeadlineLayer(Deadline(ctx).value) in Layers(ctx)
    ensures forall d :: DeadlineLayer(d) in Layers(ctx) ==> Deadline(ctx).Some? && Deadline(ctx).value <= d
  {
    if !ctx.Background? {
      DeadlineIsLeast(ctx.parent);
      assert Layers(ctx)[0] in Layers(ctx);
    }
  }

  /** What NewContext stores is read back through any number of layers that use other keys, deadlines among them: the
      caller reaches an executor that a handler calls with a context of its own making. */
  lemma CallerSurvivesWrapping(ctx: Context, c: Caller, outer: Context, i: nat)
    requires i <= |Layers(outer)| && Layers(outer)[i..] == Layers(NewContext(ctx, c))
    requires forall j :: 0 <= j < i ==> Layers(outer)[j].DeadlineLayer? || Layers(outer)[j].key != CallerKey
    ensures FromContext(outer) == Some(c)
  {
    LookupFindsInnermost(outer, CallerKey, CallerValue(c));
    assert Layers(outer)[i] == Layers(outer)[i..][0] == ValueLayer(CallerKey, CallerValue(c));
    assert Innermost(Layers(outer), CallerKey, i);
  }

  function NewContext(ctx: Context, c: Caller): Context {
    WithValue(ctx, CallerKey, CallerValue(c))
  }

  /** The lookup is followed by a type assertion, so a foreign value under the key reads as absent. */
  function FromContext(ctx: Context): Option<Caller> {
    match Lookup(ctx, CallerKey)
    case Some(CallerValue(c)) => Some(c)
    case _ => None
  }

  function WithMetadata(ctx: Context, md: Metadata): Context {
    WithValue(ctx, MetadataKey, MetadataValue(md))
  }

  function MetadataFromContext(ctx: Context): Option<Metadata> {
    match Lookup(ctx, MetadataKey)
    case Some(MetadataValue(md)) => Some(md)
    case _ => None
  }

  /** What the adapters use of a *slim_rpc.Context: the verified peer identity, and the
      context.Context that slim_rpc.ContextFromRpcContext makes of it, an arbitrary chain. */
  datatype RpcContext = RpcContext(peerSubject: Option<string>, peerIssuer: Option<string>, converted: Context)

  function FromRPCContext(rc: RpcContext): Option<Caller> {
    match rc.peerSubject
    case None => None
    case Some(sub) =>
      if sub == "" then None
      else Some(Caller(sub, match rc.peerIssuer case Some(iss) => iss case None => ""))
  }

  const SESSION_METADATA_KEYS: seq<string> := ["slim-peer-subject", "slim-payload-sig"]

  predicate HasAny(md: Metadata, keys: seq<string>) {
    exists k :: k in keys && k in md
  }

  /** The map without the given keys. */
  function WithoutKeys(md: Metadata, keys: seq<string>): Metadata {
    map k | k in md && k !in keys :: md[k]
  }

  /** The metadata step of handlerContext: a link is added only when something has to go. */
  function HideSessionKeys(ctx: Context): Context {
    match MetadataFromContext(ctx)
    case Some(md) =>
      if HasAny(md, SESSION_METADATA_KEYS) then WithMetadata(ctx, WithoutKeys(md, SESSION_METADATA_KEYS)) else ctx
    case None => ctx
  }

  /** handlerContext. */
  function HandlerContext(rc: RpcContext): Context {
    var ctx := HideSessionKeys(rc.converted);
    match FromRPCContext(rc)
    case Some(c) => NewContext(ctx, c)
    case None => ctx
  }

  /** Filtering twice changes nothing more, and exactly the maps without the keys are their own filtering. */
  lemma WithoutKeysIdempotent(md: Metadata, keys: seq<string>)
    ensures WithoutKeys(WithoutKeys(md, keys), keys) == WithoutKeys(md, keys)
    ensures !HasAny(WithoutKeys(md, keys), keys)
    ensures WithoutKeys(md, keys) == md <==> !HasAny(md, keys)
  {
  }

  /** What a handler sees: the metadata restricted to the non-session keys, the verified caller when
      there is one, and every other value and the deadline as the RPC context has them. Neither of
      the two links that are added hides the other. */
  lemma HandlerContextExact(rc: RpcContext)
    ensures MetadataFromContext(HandlerContext(rc)) ==
            match MetadataFromContext(rc.converted)
            case Some(md) => Some(WithoutKeys(md, SESSION_METADATA_KEYS))
            case None => None
    ensures FromContext(HandlerContext(rc)) ==
            if FromRPCContext(rc).Some? then FromRPCContext(rc) else FromContext(rc.converted)
    ensures forall k :: k != CallerKey && k != MetadataKey ==> Lookup(HandlerContext(rc), k) == Lookup(rc.converted, k)
    ensures Deadline(HandlerContext(rc)) == Deadline(rc.converted)
  {
    var ctx := HideSessionKeys(rc.converted);
    match MetadataFromContext(rc.converted) {
      case Some(md) => WithoutKeysIdempotent(md, SESSION_METADATA_KEYS);
      case None =>
    }
    assert Lookup(HandlerContext(rc), MetadataKey) == Lookup(ctx, MetadataKey);
    assert Lookup(ctx, CallerKey) == Lookup(rc.converted, CallerKey);
  }

  /** The two keys of the SLIM session layer, by name: neither is in the metadata a handler sees, and every other
      entry is. */
  lemma SessionKeysAreHidden(rc: RpcContext)
    ensures match (MetadataFromContext(rc.converted), MetadataFromContext(HandlerContext(rc)))
            case (Some(sent), Some(seen)) =>
              && "slim-peer-subject" !in seen && "slim-payload-sig" !in seen
              && forall k :: k != "slim-peer-subject" && k != "slim-payload-sig" ==> SameEntry(seen, sent, k)
            case (None, None) => true
            case _ => false
  {
    HandlerContextExact(rc);
    assert SESSION_METADATA_KEYS[0] == "slim-peer-subject" && SESSION_METADATA_KEYS[1] == "slim-payload-sig";
  }

  /** Two contexts that a body cannot tell apart unless it reads the caller or a session key. */
  ghost predicate SameForBody(a: Context, b: Context) {
    && (forall k :: k != CallerKey && k != MetadataKey ==> Lookup(a, k) == Lookup(b, k))
    && Deadline(a) == Deadline(b)
    && match (MetadataFromContext(a), MetadataFromContext(b))
       case (Some(m), Some(n)) => WithoutKeys(m, SESSION_METADATA_KEYS) == WithoutKeys(n, SESSION_METADATA_KEYS)
       case (None, None) => true
       case _ => false
  }

  /** The adapters' context differs from the generated stub's in the caller and the session keys only. */
  lemma HandlerContextSameForBody(rc: RpcContext)
    ensures SameForBody(HandlerContext(rc), rc.converted)
  {
    HandlerContextExact(rc);
    match MetadataFromContext(rc.converted)
    case Some(md) => WithoutKeysIdempotent(md, SESSION_METADATA_KEYS);
    case None =>
  }

  /** No link of the chain uses the caller package's key: true of every context made outside that
      package, because the key's type is not exported. */
  predicate CallerFree(ctx: Context) {
    match ctx
    case Background => true
    case WithDeadline(parent, _) => CallerFree(parent)
    case WithValue(parent, k, _) => k != CallerKey && CallerFree(parent)
  }

  lemma {:induction false} CallerFreeHasNoCaller(ctx: Context)
    requires CallerFree(ctx)
    ensures Lookup(ctx, CallerKey) == None
  {
    if !ctx.Background? {
      CallerFreeHasNoCaller(ctx.parent);
    }
  }

  /** The caller a handler reads is a function of the peer identity alone: two requests with the same
      verified peer, whatever their metadata, deadlines and other values, read the same caller;
      and there is none exactly when SLIM reports no subject or an empty one. */
  lemma CallerNonInterference(rc1: RpcContext, rc2: RpcContext)
    requires CallerFree(rc1.converted) && CallerFree(rc2.converted)
    requires rc1.peerSubject == rc2.peerSubject && rc1.peerIssuer == rc2.peerIssuer
    ensures FromContext(HandlerContext(rc1)) == FromContext(HandlerContext(rc2))
    ensures FromContext(HandlerContext(rc1)).None? <==> rc1.peerSubject.None? || rc1.peerSubject.value == ""
    ensures match FromContext(HandlerContext(rc1))
            case None => true
            case Some(c) =>
              && Some(c.subject) == rc1.peerSubject
              && c.issuer == match rc1.peerIssuer case Some(iss) => iss case None => ""
  {
    CallerFreeHasNoCaller(rc1.converted);
    CallerFreeHasNoCaller(rc2.converted);
  }

  /** One hop of a relay: the peer SLIM verified, what the session layer and the binding add to the
      metadata, and the rest of the converted context. */
  datatype Hop = Hop(peerSubject: Option<string>, peerIssuer: Option<string>, added: Metadata, base: Context)

  /** The handler's context when metadata md was put on the wire for this hop. */
  function Arrive(md: Metadata, h: Hop): Context {
    HandlerContext(RpcContext(h.peerSubject, h.peerIssuer, WithMetadata(h.base, md + h.added)))
  }

  /** The metadata a generated client sends when it is called with ctx. */
  function Forwarded(ctx: Context): Metadata {
    match MetadataFromContext(ctx) case Some(md) => md case None => map[]
  }

  /** The metadata that the last of a row of agents forwards, each calling the next with its handler context. */
  function MetadataAfter(md: Metadata, hops: seq<Hop>): Metadata
    decreases |hops|
  {
    if hops == [] then md else MetadataAfter(Forwarded(Arrive(md, hops[0])), hops[1..])
  }

  predicate SameEntry(a: Metadata, b: Metadata, k: string) {
    (k in a <==> k in b) && (k in a && k in b ==> a[k] == b[k])
  }

  /** Over a row of any length: no session key, neither one added by SLIM nor one the first caller made
      up, leaves a handler, and every key nobody on the way adds arrives with its value or its absence. */
  lemma {:induction false} MetadataOverHops(md: Metadata, hops: seq<Hop>, k: string)
    ensures hops != [] && k in SESSION_METADATA_KEYS ==> k !in MetadataAfter(md, hops)
    ensures k !in SESSION_METADATA_KEYS && (forall h :: h in hops ==> k !in h.added) ==>
              SameEntry(MetadataAfter(md, hops), md, k)
    decreases |hops|
  {
    if hops != [] {
      var h := hops[0];
      var rc := RpcContext(h.peerSubject, h.peerIssuer, WithMetadata(h.base, md + h.added));
      HandlerContextExact(rc);
      var next := Forwarded(Arrive(md, h));
      assert next == WithoutKeys(md + h.added, SESSION_METADATA_KEYS);
      MetadataOverHops(next, hops[1..], k);
      assert k !in SESSION_METADATA_KEYS && k !in h.added ==> SameEntry(next, md, k);
    }
  }

  lemma WithoutKeysSnoc(md: Metadata, keys: seq<string>, key: string)
    ensures WithoutKeys(md, keys + [key]) == WithoutKeys(md, keys) - {key}
  {
  }

  /** A Go map[string]string: a reference to entries that are updated in place. */
  class StringMap {
    var entries: Metadata

    constructor ()
      ensures entries == map[]
    {
      entries := map[];
    }
  }

  /** The copy loop of withoutSessionKeys. Go visits the entries of a map in an arbitrary order, and so does this. */
  method CopyEntries(md: StringMap) returns (out: StringMap)
    ensures fresh(out) && out.entries == md.entries
    ensures unchanged(md)
  {
    out := new StringMap();
    var todo := md.entries.Keys;
    while todo != {}
      invariant fresh(out) && unchanged(md)
      invariant todo <= md.entries.Keys
      invariant out.entries == map k | k in md.entries && k !in todo :: md.entries[k]
      decreases |todo|
    {
      var k :| k in todo;
      out.entries := out.entries[k := md.entries[k]];
      todo := todo - {k};
    }
  }

  /** The delete loop of withoutSessionKeys. */
  method DeleteKeys(m: StringMap, keys: seq<string>)
    modifies m
    ensures m.entries == WithoutKeys(old(m.entries), keys)
  {
    ghost var md := m.entries;
    for i := 0 to |keys|
      invariant m.entries == WithoutKeys(md, keys[..i])
    {
      WithoutKeysSnoc(md, keys[..i], keys[i]);
      assert keys[..i + 1] == keys[..i] + [keys[i]];
      m.entries := m.entries - {keys[i]};
    }
    assert keys[..|keys|] == keys;
  }

  /** withoutSessionKeys, with the package's key list as a parameter. */
  method WithoutSessionKeys(md: StringMap, keys: seq<string>) returns (out: StringMap, changed: bool)
    ensures changed <==> HasAny(md.entries, keys)
    ensures out.entries == WithoutKeys(md.entries, keys)
    ensures changed ==> fresh(out)
    ensures !changed ==> out == md
    ensures unchanged(md)
  {
    changed := false;
    for i := 0 to |keys|
      invariant !changed
      invariant forall j :: 0 <= j < i ==> keys[j] !in md.entries
    {
      if keys[i] in md.entries {
        changed := true;
        break;
      }
    }
    if !changed {
      WithoutKeysIdempotent(md.entries, keys);
      return md, false;
    }
    out := CopyEntries(md);
    DeleteKeys(out, keys);
  }
}
