/**
 A delta session end to end: the server signs the new file and sends the signatures as a frame; the
 client decodes them, plans against its old file and carries the plan out.
 */
module DeltaSession {
  import opened Codec
  import opened DeltaArith
  import opened DeltaPlan
  import opened DeltaPlanner
  import opened DeltaRebuild
  import opened Frames
  import opened Ints
  import opened SignatureCodec
  import opened Signatures

  const BLOCK_SIG_RESPONSE: u8 := 23

  lemma SignedSet(strong: HashFn, data: Bytes)
    requires |data| < TWO_64
    ensures ValidSet(SigOf(strong, data))
  {
  }

  /** The client's plan is the plan of the signatures the server made, across the wire. */
  method PlanOverTheWire(strong: HashFn, fileHash: HashFn, path: Bytes, streamId: u32, newData: Bytes, oldData: Bytes,
                         opt: BuildOptions)
    returns (plan: Result<DeltaPlan>)
    requires |newData| < TWO_64 && |oldData| < MAX_FILE && |path| <= MAX_STRING
    requires |Payload(Response(path, fileHash(newData), SigOf(strong, newData)))| <= MAX_PAYLOAD
    ensures plan == Ok(PlanOf(SigOf(strong, newData), strong, oldData, opt))
  {
    SignedSet(strong, newData);
    hide SigOf, PlanOf, Payload, Decoded, Cut;
    var sig := GenerateSignatures(strong, newData);
    var response := Response(path, fileHash(newData), sig);
    var payload := EncodeBlockSigResponse(response);
    var sent := [Frame(BLOCK_SIG_RESPONSE, streamId, payload.value)];
    var received := Transfer(sent, 1024);
    ResponseRoundTrip(response, []);
    assert payload.value + [] == payload.value;
    var decoded := DecodeBlockSigResponse(received[0].payload);
    SamePlan(sig, strong, oldData, opt);
    SameFields(sig);
    var p := BuildPlan(decoded.value.sig, strong, oldData, opt);
    return Ok(p);
  }

  /** What the client rebuilds from what it decoded is the server's file. */
  lemma RebuildsOverTheWire(strong: HashFn, response: Response, oldData: Bytes, newData: Bytes, opt: BuildOptions,
                            out: Bytes)
    requires 0 < |newData| < TWO_64 && |oldData| < MAX_FILE && |out| == |newData| && |response.path| <= MAX_STRING
    requires response.sig == SigOf(strong, newData) && Covered(response.sig)
    requires ValidSet(response.sig) && NoCollision(response.sig, strong, oldData, newData)
    requires !PlanOf(response.sig, strong, oldData, opt).stats.earlyStopped
    requires RunsFit(response.sig, ScanOf(response.sig, strong, oldData, opt).matched)
    ensures var d := Decoded(Payload(response));
            && d.Ok? && ValidSet(d.value.sig)
            && var plan := PlanOf(d.value.sig, strong, oldData, opt);
               DoMisses(plan.misses, newData, DoCopies(plan.copies, oldData, out)) == newData
  {
    hide SigOf, PlanOf, Decoded, Cut, NoCollision, RunsFit, ScanOf, DoMisses, DoCopies;
    ResponseRoundTrip(response, []);
    assert Payload(response) + [] == Payload(response);
    SamePlan(response.sig, strong, oldData, opt);
    SameFields(response.sig);
    DeltaRoundTrip(strong, oldData, newData, opt, out);
  }
}
