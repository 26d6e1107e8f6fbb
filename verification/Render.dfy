/** Whether the agent can render the configuration of its tunnel client from a descriptor. */
module Render {
  import opened Json
  import opened Text
  import P = Payload
  import Pick = FingerprintPick

  /** The text rendered is not modelled, only that there is one; Raised stands for an exception that
      is not a ConfigError. */
  datatype Outcome = Rendered | ConfigError | Raised

  /** What stands after the last colon is a number. */
  predicate EndpointUsable(co: P.Coercion, endpoint: string) {
    var colon := RFind(endpoint, ':');
    colon >= 0 && co.toInt(Str(endpoint[colon + 1..])).Some?
  }

  /** The same of a value, which may hold a lone surrogate. */
  predicate PortReads(co: P.Coercion, endpoint: Json) {
    match endpoint
    case Str(s) => EndpointUsable(co, s)
    case Lone(codes) =>
      var colon := RFind(codes, ':' as int);
      colon >= 0 && co.toInt(OfCodes(codes[colon + 1..])).Some?
    case _ => false
  }

  predicate ExitUsable(co: P.Coercion, exit: Json) {
    exit.IsDict()
    && Get(exit.fields, "endpoint").Some? && PortReads(co, Get(exit.fields, "endpoint").value)
    && Get(exit.fields, "fingerprint").Some? && Get(exit.fields, "cover_sni").Some?
    && Get(exit.fields, "reality_pubkey").Some?
  }

  method RenderExits(co: P.Coercion, exits: seq<Json>) returns (ok: bool)
    ensures ok <==> forall k :: 0 <= k < |exits| ==> ExitUsable(co, exits[k])
  {
    for k := 0 to |exits|
      invariant forall i :: 0 <= i < k ==> ExitUsable(co, exits[i])
    {
      if !ExitUsable(co, exits[k]) { return false; }
    }
    return true;
  }

  function RenderConfig(co: P.Coercion, descriptor: Json, digest: nat): Outcome {
    if !descriptor.IsDict() then Raised
    else
      var fields := descriptor.fields;
      var exits := Get(fields, "eu_exit_set");
      if exits.None? || P.Falsy(exits.value) then ConfigError
      else (
        match Pick.PickFingerprint(co, Get(fields, "tls_fingerprints"), digest)
        case ConfigError => ConfigError
        case Escaped => Raised
        case Picked(_) =>
          if exits.value.Arr? && forall k :: 0 <= k < |exits.value.elems| ==> ExitUsable(co, exits.value.elems[k])
          then Rendered else Raised
      )
  }

  /** The source's order: the exits are missed first, then the fingerprint is chosen, then each exit
      is rendered. */
  method RenderSingBoxConfig(co: P.Coercion, descriptor: Json, digest: nat) returns (r: Outcome)
    ensures r == RenderConfig(co, descriptor, digest)
  {
    if !descriptor.IsDict() { return Raised; }
    var exits := Get(descriptor.fields, "eu_exit_set");
    if exits.None? || P.Falsy(exits.value) { return ConfigError; }
    var fp := Pick.Choose(co, Get(descriptor.fields, "tls_fingerprints"), digest);
    if fp.ConfigError? { return ConfigError; }
    if fp.Escaped? || !exits.value.Arr? { return Raised; }
    var ok := RenderExits(co, exits.value.elems);
    return if ok then Rendered else Raised;
  }

  // ---- which descriptors can be rendered ----

  /** After its last colon the endpoint is a number. */
  ghost predicate EndsInPort(co: P.Coercion, endpoint: string) {
    exists i :: 0 <= i < |endpoint| && endpoint[i] == ':' && ':' !in endpoint[i + 1..]
                && co.toInt(Str(endpoint[i + 1..])).Some?
  }

  lemma EndpointExactly(co: P.Coercion, endpoint: string)
    ensures EndpointUsable(co, endpoint) <==> EndsInPort(co, endpoint)
  {
    forall i: nat | i < |endpoint|
      ensures RFind(endpoint, ':') == i <==> endpoint[i] == ':' && ':' !in endpoint[i + 1..]
    {
      RFindExactly(endpoint, ':', i);
    }
  }

  /** The same of a value; a text that holds a lone surrogate has code points instead. */
  ghost predicate PortAt(co: P.Coercion, endpoint: Json) {
    match endpoint
    case Str(s) => EndsInPort(co, s)
    case Lone(codes) =>
      exists i :: 0 <= i < |codes| && codes[i] == 0x3A && 0x3A !in codes[i + 1..]
                  && co.toInt(OfCodes(codes[i + 1..])).Some?
    case _ => false
  }

  lemma LonePortExactly(co: P.Coercion, codes: seq<Code>)
    ensures PortReads(co, Lone(codes)) <==> PortAt(co, Lone(codes))
  {
    forall i: nat | i < |codes| ensures RFind(codes, 0x3A) == i <==> codes[i] == 0x3A && 0x3A !in codes[i + 1..] {
      RFindExactly(codes, 0x3A, i);
    }
  }

  lemma PortExactly(co: P.Coercion, endpoint: Json)
    ensures PortReads(co, endpoint) <==> PortAt(co, endpoint)
  {
    match endpoint
    case Str(s) => EndpointExactly(co, s);
    case Lone(codes) => LonePortExactly(co, codes);
    case _ =>
  }

  /** Exactly when a descriptor with a list of exits can be rendered. */
  lemma RendersExactly(co: P.Coercion, descriptor: Json, digest: nat)
    requires descriptor.IsDict() && Get(descriptor.fields, "eu_exit_set").Some?
    requires Get(descriptor.fields, "eu_exit_set").value.Arr?
    ensures var exits := Get(descriptor.fields, "eu_exit_set").value.elems;
      RenderConfig(co, descriptor, digest) == Rendered <==>
        && exits != [] && Pick.PickFingerprint(co, Get(descriptor.fields, "tls_fingerprints"), digest).Picked?
        && forall k :: 0 <= k < |exits| ==>
             && exits[k].IsDict()
             && var fields := exits[k].fields;
               && Get(fields, "endpoint").Some? && PortAt(co, Get(fields, "endpoint").value)
               && Get(fields, "fingerprint").Some? && Get(fields, "cover_sni").Some?
               && Get(fields, "reality_pubkey").Some?
  {
    var exits := Get(descriptor.fields, "eu_exit_set").value.elems;
    forall k | 0 <= k < |exits| && exits[k].IsDict() && Get(exits[k].fields, "endpoint").Some?
      ensures PortReads(co, Get(exits[k].fields, "endpoint").value)
              <==> PortAt(co, Get(exits[k].fields, "endpoint").value)
    {
      PortExactly(co, Get(exits[k].fields, "endpoint").value);
    }
  }
}
