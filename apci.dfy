/** Application Layer Protocol Control Information (ASHRAE 135 clause 20.1): the header
  * fields of an APDU, and the payload octets every APDU carries beside them. */
module Apci {
  import opened Wrappers
  import opened Bytes

  /** The thirteen APCI fields; `None` is an unset field. */
  datatype ApciFields = ApciFields(
    apduType: Option<int>,
    apduSeg: Option<bool>,        // segmented
    apduMor: Option<bool>,        // more follows
    apduSA: Option<bool>,         // segmented response accepted
    apduSrv: Option<bool>,        // sent by server
    apduNak: Option<bool>,        // negative acknowledgement
    apduSeq: Option<int>,         // sequence number
    apduWin: Option<int>,         // actual/proposed window size
    apduMaxSegs: Option<int>,     // maximum segments accepted (decoded)
    apduMaxResp: Option<int>,     // maximum response accepted (decoded)
    apduService: Option<int>,
    apduInvokeID: Option<int>,
    apduAbortRejectReason: Option<int>)

  /** The fields of a freshly made APCI: all unset. */
  const Unset: ApciFields :=
    ApciFields(None, None, None, None, None, None, None, None, None, None, None, None, None)

  class APCI {
    var apduType: Option<int>
    var apduSeg: Option<bool>
    var apduMor: Option<bool>
    var apduSA: Option<bool>
    var apduSrv: Option<bool>
    var apduNak: Option<bool>
    var apduSeq: Option<int>
    var apduWin: Option<int>
    var apduMaxSegs: Option<int>
    var apduMaxResp: Option<int>
    var apduService: Option<int>
    var apduInvokeID: Option<int>
    var apduAbortRejectReason: Option<int>
    /** The octets of the PDUData base that an APDU mixes in beside its APCI. */
    var pduData: seq<byte>

    function Fields(): ApciFields
      reads this
    {
      ApciFields(apduType, apduSeg, apduMor, apduSA, apduSrv, apduNak, apduSeq, apduWin,
                 apduMaxSegs, apduMaxResp, apduService, apduInvokeID, apduAbortRejectReason)
    }

    /** A new APCI has every field unset (and no payload). */
    constructor ()
      ensures Fields() == Unset && pduData == []
    {
      apduType, apduSeg, apduMor, apduSA, apduSrv, apduNak := None, None, None, None, None, None;
      apduSeq, apduWin, apduMaxSegs, apduMaxResp := None, None, None, None;
      apduService, apduInvokeID, apduAbortRejectReason := None, None, None;
      pduData := [];
    }

    /** Replace the fields with `f`, leaving the payload alone. */
    method SetFields(f: ApciFields)
      modifies this
      ensures Fields() == f && pduData == old(pduData)
    {
      apduType, apduSeg, apduMor, apduSA, apduSrv, apduNak :=
        f.apduType, f.apduSeg, f.apduMor, f.apduSA, f.apduSrv, f.apduNak;
      apduSeq, apduWin, apduMaxSegs, apduMaxResp := f.apduSeq, f.apduWin, f.apduMaxSegs, f.apduMaxResp;
      apduService, apduInvokeID, apduAbortRejectReason :=
        f.apduService, f.apduInvokeID, f.apduAbortRejectReason;
    }

    /** `update`: copy every APCI field of `src`; the payload is not part of the APCI. */
    method Update(src: APCI)
      modifies this
      ensures Fields() == old(src.Fields()) && pduData == old(pduData)
    {
      var f := src.Fields();
      SetFields(f);
    }
  }
}
