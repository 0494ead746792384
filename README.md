# bacpypes protocol core in Dafny

A model of the protocol engine of bacpypes, a Python BACnet stack, with proofs about it.
The model covers these parts:

- **Wire codecs.**
  - The consumable octet buffer (`PDUData`).
  - The APCI and the APDU classes (clause 20.1 of ASHRAE 135).
  - The NPCI and the network layer messages (clause 6.2 of ASHRAE 135).
  - The BVLL header and messages of B/IP (Annex J of ASHRAE 135).
  - The BSLL header and messages, and the stream framer that cuts BSLL packets out of a TCP stream.
- **Segmentation and transactions** (clause 5.4 of ASHRAE 135).
  - The segmentation state machine (`SSM`) and its client and server transactions.
  - The state machine access point, which allocates invoke IDs and routes APDUs to transactions.
  - The access point's Device-Communication-Control filter.
- **Tables the stack keeps up to date.**
  - The device information cache and its reference counts.
  - The change-of-value subscription lists.
  - The BBMD's broadcast distribution table (BDT) and foreign device table (FDT).
  - The network layer's router and network tables.
  - The application's object registry.
- **Smaller state machines and validators.**
  - Address parsing and printing, and the station constructors.
  - The IOCB and its controller.
  - Service requests and authentication in the BSLL server multiplexer.
  - The Who-Is, Who-Has and Device-Communication-Control services of a device.

There is one Dafny module per source file; a second `...Properties` module beside it holds the
lemmas that relate several operations. How the model is written:

- **Buffers.** Octets are `Bytes.byte` (0..255) and buffers are `seq<byte>`.
- **Codecs.**
  - Each codec is a pure `Encode...`/`Decode...` function pair with a round-trip lemma.
  - A method over a `PDUData` buffer sits beside each pair. It does the source's sequential
    `put`/`get` work and is proved to append exactly the encoding, or to consume exactly
    what the decoder reads.
- **Objects.**
  - An object whose attributes the source updates in place is a `class`.
  - The class has a `Fields()` snapshot of those attributes.
  - Each method states its outcome and new state as a pure step function of the old
    snapshot, for example `(r, Fields()) == BindStep(old(Fields()), net, address)`.
  - The protocol properties are lemmas about the step functions.
- **Values.** Addresses and messages are datatypes. `==` on `Addresses.Address` compares
  type, network and address octets, as `Address.__eq__` and `__hash__` do
  (bacpypes/link/address.py:328-336).
- **Exceptions.** An exception is an `Err` of `Wrappers.Result`, named after the Python
  exception class. An attribute the code reads but never set is an AttributeError. A Python
  value used as a condition is modelled with Python's truthiness: 0, `None` and empty
  containers are false.
- **Source defects.** Where the code as written cannot do what it evidently means to, the model
  holds two members, listed under Findings below:
  - an `...AsWritten` member with a lemma exhibiting the failure;
  - a corrected member, which the rest of the model uses and which carries the intended
    properties.

## Model

| member | source | states |
|---|---|---|
| PduData.PDUData.constructor | bacpypes/comm/pdu_data.py:23-37 | a new buffer holds exactly the given octets (`None` is the empty buffer) |
| PduData.PDUData.Get | bacpypes/comm/pdu_data.py:39-44 | an empty buffer is a DecodingError and stays as it was; otherwise the first octet is returned and removed |
| PduData.PDUData.GetData | bacpypes/comm/pdu_data.py:46-51 | fewer than n octets is a DecodingError with nothing consumed; otherwise the first n octets are returned and dropped |
| PduData.PDUData.GetShort | bacpypes/comm/pdu_data.py:53-54 | the big-endian value of the first two octets, which are consumed; fewer than two is a DecodingError |
| PduData.PDUData.GetLong | bacpypes/comm/pdu_data.py:56-57 | the big-endian value of the first four octets, which are consumed; fewer than four is a DecodingError |
| PduData.PDUData.Put | bacpypes/comm/pdu_data.py:59-61 | appends one octet exactly when the value is in 0..255; otherwise a ValueError and the buffer is unchanged |
| PduData.PDUData.PutData | bacpypes/comm/pdu_data.py:63-73 | the octets are appended after the existing ones |
| PduData.PDUData.PutShort | bacpypes/comm/pdu_data.py:75-76 | appends n masked to 16 bits, high octet first; earlier octets are unchanged |
| PduData.PDUData.PutLong | bacpypes/comm/pdu_data.py:78-79 | appends n masked to 32 bits, high octet first; earlier octets are unchanged |
| PduData.Octet | bacpypes/comm/pdu_data.py:59-61 | `bytes([x])` of an optional field succeeds exactly for a set value in 0..255 and then yields that value |
| PduData.PutField | bacpypes/comm/pdu_data.py:59-61 | putting an optional field appends its one octet, or fails and leaves the buffer as it was |
| PduData.Take | bacpypes/comm/pdu_data.py:39-44 | succeeds exactly on a non-empty buffer; the octet followed by the rest is the buffer |
| PduData.TakeData | bacpypes/comm/pdu_data.py:46-51 | succeeds exactly when n octets remain; the n octets followed by the rest is the buffer |
| PduData.TakeShort | bacpypes/comm/pdu_data.py:53-54 | succeeds exactly with two octets left; re-packing the value gives the two octets back |
| PduData.ShortReadBack | bacpypes/comm/pdu_data.py:53-76 | `get_short` after `put_short(n)` reads n masked to 16 bits and leaves what follows untouched |
| PduData.LongReadBack | bacpypes/comm/pdu_data.py:56-79 | `get_long` after `put_long(n)` reads n masked to 32 bits and leaves what follows untouched |
| Bytes.ShortValue | bacpypes/comm/pdu_data.py:53-54 | the value of two big-endian octets is below 2^16 |
| Bytes.LongValue | bacpypes/comm/pdu_data.py:56-57 | the value of four big-endian octets is below 2^32 |
| Bytes.Short | bacpypes/comm/pdu_data.py:75-76 | two octets whose big-endian value is n modulo 2^16 |
| Bytes.Long | bacpypes/comm/pdu_data.py:78-79 | four octets whose big-endian value is n modulo 2^32 |
| Bytes.ShortOfValue | bacpypes/comm/pdu_data.py:53-76 | packing the value read from two octets gives the same two octets |
| Bytes.LongOfValue | bacpypes/comm/pdu_data.py:56-79 | packing the value read from four octets gives the same four octets |
| Apci.APCI.constructor | bacpypes/apdu/apci.py:19-33 | a fresh APCI has every field unset and no payload |
| Apci.APCI.SetFields | bacpypes/apdu/apci.py:35-49 | the APCI fields become the given ones; the payload is untouched |
| Apci.APCI.Update | bacpypes/apdu/apci.py:35-49 | `update` copies all thirteen APCI fields of the source and leaves the payload alone |
| Apdu.TrailingZerosSplit | bacpypes/apdu/apdu.py:40-46 | the count the encoder loop computes is the exponent of the largest power of two dividing arg |
| Apdu.TrailingZerosOfPow2 | bacpypes/apdu/apdu.py:40-46 | 2^k encodes to k |
| Apdu.EncodeMaxSegmentsAccepted | bacpypes/apdu/apdu.py:40-46 | the shifting loop returns the number of trailing zero bits; None and 0 encode as 0 |
| Apdu.DecodeMaxSegmentsAccepted | bacpypes/apdu/apdu.py:49-51 | code 0 decodes to None and code k to 2^k |
| Apdu.MaxSegmentsRoundTrip | bacpypes/apdu/apdu.py:40-51 | 2^k for k at least 1 decodes back to itself after encoding; 1 encodes to 0 and so decodes to None |
| Apdu.MaxApduCode | bacpypes/apdu/apdu.py:54-59 | the largest code at most 5 whose table value does not exceed arg; below 50 is a ValueError and None a TypeError |
| Apdu.EncodeMaxApduLengthAccepted | bacpypes/apdu/apdu.py:54-59 | the downward scan over the table returns exactly that largest code, or the same errors |
| Apdu.DecodeMaxApduLengthAccepted | bacpypes/apdu/apdu.py:35-37 | codes 0..5 give the table value; 6..15 are a ValueError; Python's negative indexing and an out-of-range index are modelled too |
| Apdu.MaxApduRoundTrip | bacpypes/apdu/apdu.py:54-66 | each of the six table values encodes to its code and decodes back to itself |
| Apdu.FirstOctet | bacpypes/apdu/apdu.py:148-157 | the type sits in the high nibble and each of the four flag bits reads back as given |
| Apdu.FirstOctetBits | bacpypes/apdu/apdu.py:148-157 | the type shifted left four plus the flag values is an octet with those bits |
| Apdu.SizesOctet | bacpypes/apdu/apdu.py:158-159 | the max-segments/max-response octet of a canonical request decodes back to the same two values |
| Apdu.ConfirmedRequestHeader | bacpypes/apdu/apdu.py:148-166 | a canonical Confirmed-Request starts with the flag octet and the sizes octet, and each field reads back from them |
| Apdu.EncodeConfirmedRequestFields | bacpypes/apdu/apci.py:62-69 | encoding dispatches a Confirmed-Request to its own encoder |
| Apdu.ConfirmedRequestDecoding | bacpypes/apdu/apdu.py:167-179 | the header octets of a Confirmed-Request decode into the fields they were made from |
| Apdu.DecodeConfirmedRequestFields | bacpypes/apdu/apci.py:71-82 | decoding a first octet with type 0 dispatches to the Confirmed-Request decoder |
| Apdu.ConfirmedRequestRoundTrip | bacpypes/apdu/apdu.py:148-179 | a canonical Confirmed-Request header decodes back to its fields and leaves what follows untouched |
| Apdu.IdSeqWinServiceRoundTrip | bacpypes/apdu/apdu.py:160-164 | invoke ID, then sequence number and window exactly when segmented, then service choice, read back |
| Apdu.ComplexAckRoundTrip | bacpypes/apdu/apdu.py:266-289 | a canonical Complex-ACK header decodes back to its fields, with seq/win only when segmented |
| Apdu.SegmentAckRoundTrip | bacpypes/apdu/apdu.py:315-333 | the nak and srv bits, invoke ID, sequence number and window read back |
| Apdu.AbortRoundTrip | bacpypes/apdu/apdu.py:474-488 | the srv bit, invoke ID and reason read back |
| Apdu.ApciRoundTrip | bacpypes/apdu/apci.py:62-82 | every canonical APCI, of any of the eight types, decodes back into a fresh APCI after encoding |
| Apdu.DecodeIsCanonical | bacpypes/apdu/apci.py:71-82 | whatever decodes successfully yields canonical fields, so it re-encodes and reads back the same |
| Apdu.PutSeqWin | bacpypes/apdu/apdu.py:161-163 | writes sequence number and window exactly when segmented, or fails as `put` does |
| Apdu.EncodeConfirmedRequestPdu | bacpypes/apdu/apdu.py:148-164 | appends the Confirmed-Request header octets (flags, sizes, invoke ID, optional seq/win, service), or fails with the error a missing or out-of-range field raises |
| Apdu.PutIdSeqWinService | bacpypes/apdu/apdu.py:160-164 | writes invoke ID, optional seq/win and service choice |
| Apdu.EncodeUnconfirmedRequestPdu | bacpypes/apdu/apdu.py:197-200 | writes the type octet and the service choice |
| Apdu.EncodeIdServicePdu | bacpypes/apdu/apdu.py:231-235 | Simple-ACK and Error write the type octet, invoke ID and service choice |
| Apdu.EncodeComplexAckPdu | bacpypes/apdu/apdu.py:266-278 | writes the Complex-ACK header |
| Apdu.EncodeSegmentAckPdu | bacpypes/apdu/apdu.py:315-325 | writes the type octet with nak and srv bits, invoke ID, sequence number and window |
| Apdu.EncodeRejectPdu | bacpypes/apdu/apdu.py:417-420 | writes the type octet, invoke ID and reason |
| Apdu.EncodeAbortPdu | bacpypes/apdu/apdu.py:474-481 | writes the type octet with the srv bit, invoke ID and reason |
| Apdu.Encode | bacpypes/apdu/apci.py:62-69 | `APCI.encode` writes what the class registered for apduType writes |
| Apdu.GetInto | bacpypes/apdu/apdu.py:173 | one octet is taken into a field, or a DecodingError on an empty buffer |
| Apdu.DecodeSeqWinPdu | bacpypes/apdu/apdu.py:174-176 | reads sequence number and window exactly when the seg flag is set |
| Apdu.DecodeServicePdu | bacpypes/apdu/apdu.py:177 | reads the service choice |
| Apdu.DecodeIdSeqWinServicePdu | bacpypes/apdu/apdu.py:173-177 | reads invoke ID, optional seq/win and service choice |
| Apdu.DecodeConfirmedRequestPdu | bacpypes/apdu/apdu.py:167-178 | flags from the first octet, sizes, invoke ID, optional seq/win, service; the payload is the rest |
| Apdu.DecodeUnconfirmedRequestPdu | bacpypes/apdu/apdu.py:202-204 | reads the service choice; the payload is the rest |
| Apdu.DecodeIdServicePdu | bacpypes/apdu/apdu.py:237-239 | reads invoke ID and service choice; only Error points the payload at the rest |
| Apdu.DecodeComplexAckPdu | bacpypes/apdu/apdu.py:281-289 | flags, invoke ID, optional seq/win, service; the payload is the rest |
| Apdu.DecodeSegmentAckPdu | bacpypes/apdu/apdu.py:328-333 | nak and srv bits, invoke ID, sequence number and window; the payload is not touched |
| Apdu.DecodeRejectAbortPdu | bacpypes/apdu/apdu.py:484-488 | Reject reads invoke ID and reason; Abort also the srv bit, and points the payload at the rest |
| Apdu.Decode | bacpypes/apdu/apci.py:71-82 | the type is the high nibble of the first octet; then the registered class decodes |
| Apdu.EncodeApdu | bacpypes/apdu/apdu.py:77-79 | the header, then the payload octets |
| Apdu.DecodeApdu | bacpypes/apdu/apdu.py:81-83 | the header, then every remaining octet becomes the payload and the buffer is empty |
| Npci.NetShort | bacpypes/network/npci.py:88 | `put_short` of an unset network number is a TypeError; a set one is its two octets |
| Npci.DecodeDadr | bacpypes/network/npci.py:131-140 | with bit 5 set a destination is read (all-ones network gives the global broadcast, an empty address a remote broadcast, else a remote station) and only that field changes; without the bit nothing is read |
| Npci.DecodeSadr | bacpypes/network/npci.py:142-150 | with bit 3 set the source read is always a remote station; a global or remote broadcast source is refused; only that field changes |
| Npci.DecodeHop | bacpypes/network/npci.py:152-153 | the hop count is read exactly when a destination is present |
| Npci.DecodeMessage | bacpypes/network/npci.py:155-162 | with bit 7 set the message type is read, and a vendor ID exactly for types 0x80 and up; otherwise the message type is cleared |
| Npci.DecodeAfterControl | bacpypes/network/npci.py:124-162 | version 1, the control octet stored, expecting-reply from bit 2 and priority from the low two bits; any source or destination set is well formed |
| Npci.DecodeAddresses | bacpypes/network/npci.py:131-153 | destination, source and hop count in encode order, and only those fields change |
| Npci.DecodeNpci | bacpypes/network/npci.py:117-122 | fewer than two octets or a version other than 1 is a DecodingError; a success stores version 1 and the control octet |
| Npci.ControlBits | bacpypes/network/npci.py:63-81 | the control octet has 0x80 iff a network message, 0x20 iff DADR, 0x08 iff SADR, 0x04 iff expecting a reply, the priority in bits 0-1 and bits 4 and 6 clear |
| Npci.ControlOctetBits | bacpypes/network/npci.py:76-79 | or-ing the flag values and the priority gives an octet with exactly those bits |
| Npci.DecodedAddresses | bacpypes/network/npci.py:131-150 | a decoded source is always a remote station, never a broadcast; a decoded destination is a station, a remote broadcast or the global broadcast |
| Npci.NetAddrRoundTrip | bacpypes/network/npci.py:99-101 | network, length and address octets of a remote station read back as written |
| Npci.DadrRoundTrip | bacpypes/network/npci.py:86-96 | each of the three destination forms reads back as the same address |
| Npci.SadrRoundTrip | bacpypes/network/npci.py:98-101 | the source station reads back as the same address |
| Npci.MessageRoundTrip | bacpypes/network/npci.py:106-110 | the message type, and the vendor ID when the type is 0x80 or above, read back |
| Npci.HopRoundTrip | bacpypes/network/npci.py:103-104 | the hop count is written and read back exactly when a destination is present |
| Npci.ControlFields | bacpypes/network/npci.py:124-129 | expecting-reply and priority read back from the control octet encode wrote |
| Npci.NpciRoundTrip | bacpypes/network/npci.py:56-162 | decoding into a fresh NPCI what encode wrote gives back every field, with the control octet encode stored, and leaves the following octets |
| Npci.AddressesRoundTrip | bacpypes/network/npci.py:86-104 | destination, source and hop count read back together |
| Npci.NPCI.constructor | bacpypes/network/npci.py:36-44 | a new NPCI has version 1 and every other field unset |
| Npci.NPCI.SetFields | bacpypes/network/npci.py:46-54 | the NPCI fields become the given ones |
| Npci.NPCI.Update | bacpypes/network/npci.py:46-54 | `update` copies every NPCI field of the source |
| Npci.NPCI.Encode | bacpypes/network/npci.py:56-110 | appends exactly the octets of the encoding and records the control octet it wrote |
| Npci.NPCI.Decode | bacpypes/network/npci.py:112-162 | the fields and the remaining buffer are those of the decoding, or its error |
| Npci.NPCI.GetAfterControl | bacpypes/network/npci.py:131-162 | reads the addresses, hop count and message type the control octet announces |
| Npci.NPCI.GetAddresses | bacpypes/network/npci.py:131-153 | reads destination, source and hop count |
| Npci.NPCI.GetDadr | bacpypes/network/npci.py:131-140 | reads one destination address |
| Npci.NPCI.GetSadr | bacpypes/network/npci.py:142-150 | reads one source address, refusing a broadcast |
| Npci.NPCI.GetMessage | bacpypes/network/npci.py:155-162 | reads the message type and vendor ID, or clears the message type |
| Npci.PutNetAddr | bacpypes/network/npci.py:99-101 | appends network, length and address octets |
| Npci.PutDadr | bacpypes/network/npci.py:86-96 | appends the destination in its remote-station, remote-broadcast or global form |
| Npci.PutAddresses | bacpypes/network/npci.py:86-104 | appends destination, source and hop count |
| Npci.PutMessage | bacpypes/network/npci.py:106-110 | appends the message type and the vendor ID for proprietary types |
| Npdu.Shorts | bacpypes/network/npdu.py:130-133 | a list of networks is written as two octets each |
| Npdu.DecodeShorts | bacpypes/network/npdu.py:135-139 | `get_short` until the data is empty succeeds exactly on an even length, and the networks read re-encode to the same octets |
| Npdu.ShortsStep | bacpypes/network/npdu.py:138-139 | one pass of the decode loop takes the first network off the front |
| Npdu.ShortsCons | bacpypes/network/npdu.py:132-133 | one pass of the encode loop appends one network's octets |
| Npdu.DecodeEntry | bacpypes/network/npdu.py:351-357 | a routing table entry read back has a network, a port ID and port information of the stated length |
| Npdu.DecodeEntries | bacpypes/network/npdu.py:351-357 | the loop reads exactly the announced number of entries |
| Npdu.DecodeTable | bacpypes/network/npdu.py:346-357 | the count octet, then that many entries, fewer than 256 |
| Npdu.DecodeBody | bacpypes/network/npdu.py:18-25 | an unregistered message type is a KeyError; a decoded body has the message type it was decoded under |
| Npdu.ShortsRoundTrip | bacpypes/network/npdu.py:130-139 | a list of networks written by IAmRouterToNetwork (and the other list messages) reads back as the same list |
| Npdu.EntryRoundTrip | bacpypes/network/npdu.py:337-357 | one routing table entry reads back and leaves what follows it |
| Npdu.EntriesCons | bacpypes/network/npdu.py:340-344 | the encode loop writes the entries one after the other |
| Npdu.EntriesRoundTrip | bacpypes/network/npdu.py:337-357 | a list of entries reads back as the same list |
| Npdu.TableRoundTrip | bacpypes/network/npdu.py:337-357 | InitializeRoutingTable's count and entries read back as the same table |
| Npdu.ShortOctetRoundTrip | bacpypes/network/npdu.py:167-175 | ICouldBeRouterToNetwork's two-octet network and one-octet performance index read back |
| Npdu.BodyRoundTrip | bacpypes/network/npdu.py:81-543 | every network layer message body decodes, under its own type, back to the same message |
| Npdu.RouterBusyAsWritten | bacpypes/network/npdu.py:240-243 | encode reads `ratnNetworkList`, which RouterBusyToNetwork never sets, so it always fails; the corrected body reads back as the list |
| Npdu.DecodeNpdu | bacpypes/network/npdu.py:36-38 | the NPCI, then everything left is the data |
| Npdu.NpduRoundTrip | bacpypes/network/npdu.py:32-38 | decoding what encode wrote gives the NPCI fields with the written control octet and the data unchanged |
| Npdu.DecodeNetworkMessage | bacpypes/network/network_sap.py:300-302 | a message is decoded exactly when the control octet marks a network layer message (bacpypes/network/npci.py:155-162) and its type is one that has a class; an unknown type is refused, where the network layer drops the NPDU; a decoded message has the announced type |
| Npdu.NetworkMessageRoundTrip | bacpypes/network/npdu.py:81-543 | a message built with its type set, sent and received, is the same message with the same NPCI |
| Npdu.NetworkNumberAsWritten | bacpypes/network/npdu.py:495-543 | WhatIsNetworkNumber and NetworkNumberIs set no message type, so their control octet lacks bit 7 and the receiver sees application data |
| Npdu.PutNetworkList | bacpypes/network/npdu.py:130-133 | the encode loop appends every network's two octets |
| Npdu.GetNetworkList | bacpypes/network/npdu.py:135-139 | the decode loop returns exactly DecodeShorts of the data and empties it |
| Npdu.PutEntry | bacpypes/network/npdu.py:340-344 | appends network, port ID, info length and info of one entry |
| Npdu.EntriesFailFrom | bacpypes/network/npdu.py:340-344 | once one entry cannot be written the whole table encoding fails with that error |
| Npdu.PutRoutingTable | bacpypes/network/npdu.py:337-344 | appends the count octet and every entry |
| Npdu.EntriesStep | bacpypes/network/npdu.py:351-357 | one pass of the decode loop reads one entry |
| Npdu.GetEntry | bacpypes/network/npdu.py:352-357 | reads one entry, or the error DecodeEntry gives |
| Npdu.GetRoutingTable | bacpypes/network/npdu.py:346-357 | reads the count and then that many entries |
| Npdu.GetEntries | bacpypes/network/npdu.py:351-357 | the counted loop reads exactly `count` entries |
| Npdu.PutBody | bacpypes/network/npdu.py:93-530 | each message class's encode appends exactly EncodeBody of the message |
| Npdu.PutShortOctet | bacpypes/network/npdu.py:167-170 | a network then an octet, failing as a missing field does |
| Npdu.GetBody | bacpypes/network/npdu.py:98-534 | each message class's decode reads exactly DecodeBody |
| Npdu.NPDU.constructor | bacpypes/network/npdu.py:29-30 | a new NPDU has a fresh NPCI and no data |
| Npdu.NPDU.Encode | bacpypes/network/npdu.py:32-34 | appends the NPCI, then the data |
| Npdu.NPDU.Decode | bacpypes/network/npdu.py:36-38 | reads the NPCI, then takes all that is left as the data and empties the buffer |
| Bvlci.EncodeBvlci | bacpypes/bvll/bvlci.py:44-57 | type, function, then the 16-bit length; encoding fails with EncodingError exactly when the length is not the data length plus 4 |
| Bvlci.DecodeBvlci | bacpypes/bvll/bvlci.py:59-74 | succeeds exactly when the type is 0x81 and the length counts the header and every octet after it; otherwise a DecodingError |
| Bvlci.BvlciRoundTrip | bacpypes/bvll/bvlci.py:44-74 | a header encode wrote in front of its data reads back as the same fields and data when the length fits 16 bits |
| Bvlci.BvlciLengthWraps | bacpypes/bvll/bvlci.py:54-74 | a length of 2^16 or more is masked by `put_short`, so decode refuses what encode wrote |
| Bvlci.PutBvlci | bacpypes/bvll/bvlci.py:44-57 | appends exactly the header encoding or fails with its error |
| Bvlci.GetBvlci | bacpypes/bvll/bvlci.py:59-74 | reads exactly the header decoding or fails with its error |
| Bvlpdu.TakeIpAddr | bacpypes/bvll/bvlpdu.py:126 | a six-octet IP station address is taken whenever six octets remain |
| Bvlpdu.DecodeBdtEntry | bacpypes/bvll/bvlpdu.py:126-127 | one BDT entry consumes exactly ten octets: address and mask |
| Bvlpdu.DecodeBdt | bacpypes/bvll/bvlpdu.py:122-128 | the entries read until the data is empty account for ten octets each |
| Bvlpdu.DecodeFdtEntry | bacpypes/bvll/bvlpdu.py:382-385 | one FDT entry consumes exactly ten octets: address, TTL and time remaining |
| Bvlpdu.DecodeFdt | bacpypes/bvll/bvlpdu.py:378-386 | the entries read until the data is empty account for ten octets each |
| Bvlpdu.DecodeBody | bacpypes/bvll/bvlpdu.py:19-21 | a function with no registered class is a KeyError; a decoded message has the function it was decoded under |
| Bvlpdu.DecodeBvll | bacpypes/bvll/bvlpdu.py:52-54 | a decoded message came from a header of type 0x81 whose function octet is the message's |
| Bvlpdu.BdtLength | bacpypes/bvll/bvlpdu.py:116-120 | a BDT encodes to ten octets per entry |
| Bvlpdu.FdtLength | bacpypes/bvll/bvlpdu.py:371-376 | an FDT encodes to ten octets per entry |
| Bvlpdu.BodyLength | bacpypes/bvll/bvlpdu.py:72-516 | the length each class puts in its header (6 for Result and Register-Foreign-Device, 4 + 10n for a BDT, 10 + data for Forwarded-NPDU, ...) counts exactly the header and the body encode writes |
| Bvlpdu.ShortAddressRejected | bacpypes/bvll/bvlpdu.py:110-120 | a BDT entry whose address is not six octets makes the body disagree with the length, and encode raises EncodingError |
| Bvlpdu.ConsBdt | bacpypes/bvll/bvlpdu.py:118-120 | the encode loop writes the entries one after the other |
| Bvlpdu.ConsFdt | bacpypes/bvll/bvlpdu.py:373-376 | the encode loop writes the entries one after the other |
| Bvlpdu.BdtEntryRoundTrip | bacpypes/bvll/bvlpdu.py:116-128 | a BDT entry's address and mask read back |
| Bvlpdu.FdtEntryRoundTrip | bacpypes/bvll/bvlpdu.py:371-386 | an FDT entry's address, TTL and time remaining read back |
| Bvlpdu.BdtRoundTrip | bacpypes/bvll/bvlpdu.py:116-128 | a broadcast distribution table reads back as the same table |
| Bvlpdu.FdtRoundTrip | bacpypes/bvll/bvlpdu.py:371-386 | a foreign device table reads back as the same table |
| Bvlpdu.BodyRoundTrip | bacpypes/bvll/bvlpdu.py:72-516 | every BVLL message body decodes, under its own function, back to the same message |
| Bvlpdu.BvllRoundTrip | bacpypes/bvll/bvlpdu.py:39-54 | a message encoded into a BVLPDU and read back is the same message, with the length its class set |
| Bvlpdu.PutAddr | bacpypes/bvll/bvlpdu.py:119 | appends the address octets |
| Bvlpdu.BdtFailsFrom | bacpypes/bvll/bvlpdu.py:118-120 | once one entry cannot be written the whole table fails with that error |
| Bvlpdu.FdtFailsFrom | bacpypes/bvll/bvlpdu.py:373-376 | once one entry cannot be written the whole table fails with that error |
| Bvlpdu.PutBdt | bacpypes/bvll/bvlpdu.py:116-120 | the loop appends address then mask for every entry |
| Bvlpdu.PutFdt | bacpypes/bvll/bvlpdu.py:371-376 | the loop appends address, TTL and time remaining for every entry |
| Bvlpdu.BdtStep | bacpypes/bvll/bvlpdu.py:125-128 | one pass of the decode loop reads one entry |
| Bvlpdu.FdtStep | bacpypes/bvll/bvlpdu.py:381-386 | one pass of the decode loop reads one entry |
| Bvlpdu.GetIpAddr | bacpypes/bvll/bvlpdu.py:126 | takes six octets as an IP station address |
| Bvlpdu.GetBdtEntry | bacpypes/bvll/bvlpdu.py:126-127 | reads one BDT entry |
| Bvlpdu.GetFdtEntry | bacpypes/bvll/bvlpdu.py:382-385 | reads one FDT entry |
| Bvlpdu.GetBdt | bacpypes/bvll/bvlpdu.py:122-128 | the loop returns exactly DecodeBdt of the data and empties it |
| Bvlpdu.GetFdt | bacpypes/bvll/bvlpdu.py:378-386 | the loop returns exactly DecodeFdt of the data and empties it |
| Bvlpdu.PutBody | bacpypes/bvll/bvlpdu.py:82-493 | each message class's encode appends exactly EncodeBody of the message |
| Bvlpdu.GetBody | bacpypes/bvll/bvlpdu.py:86-496 | each message class's decode reads exactly DecodeBody |
| Bvlpdu.BVLPDU.constructor | bacpypes/bvll/bvlci.py:30-36 | a new BVLPDU has type 0x81, no function, no length and no data |
| Bvlpdu.BVLPDU.Encode | bacpypes/bvll/bvlpdu.py:48-50 | the header, checked against the data length, then the data |
| Bvlpdu.BVLPDU.Decode | bacpypes/bvll/bvlpdu.py:52-54 | the header, then all that is left as the data; the buffer is emptied |
| Bvlpdu.BVLPDU.EncodeMessage | bacpypes/bvll/bvlpdu.py:116-120 | a message's header fields are copied in and its body written to the data |
| Bvlpdu.BVLPDU.DecodeMessage | bacpypes/bvll/bvlpdu.py:122-128 | the class named by the function decodes the data |
| Bslci.EncodeBslci | bacpypes/bsll/bslci.py:47-55 | type, function, then the 16-bit length; encoding fails with EncodingError exactly when the length is not the data length plus 4 |
| Bslci.DecodeBslci | bacpypes/bsll/bslci.py:57-67 | succeeds exactly when the type is 0x83 and the length counts the header and every octet after it; otherwise a DecodingError |
| Bslci.BslciRoundTrip | bacpypes/bsll/bslci.py:47-67 | a header encode wrote in front of its data reads back as the same fields and data when the length fits 16 bits |
| Bslci.PutBslci | bacpypes/bsll/bslci.py:47-55 | appends exactly the header encoding or fails with its error |
| Bslci.GetBslci | bacpypes/bsll/bslci.py:57-67 | reads exactly the header decoding or fails with its error |
| Bslpdu.MessageLength | bacpypes/bsll/bslpdu.py:97-101 | six for Result and Service-Request, five plus the field for the access messages, four plus the data, or five plus the address plus the data; an unset address is an AttributeError and an address without octets a TypeError |
| Bslpdu.DecodeAddressed | bacpypes/bsll/bslpdu.py:108-114 | the address-length octet, exactly that many address octets as a local station, then the data |
| Bslpdu.DecodeBody | bacpypes/bsll/bslpdu.py:43-114 | a function whose class is not registered is a KeyError; a decoded message has the function it was decoded under; the Result, Service-Request and Access bodies are those of bacpypes/bsll/bslci.py:84-193 (a 16-bit code or identifier, or a hash function octet followed by the remaining octets) |
| Bslpdu.DecodeBsll | bacpypes/bsll/tcp_server_mux.py:71-85 | the multiplexer reads a BSLPDU and then the registered class of its function |
| Bslpdu.BodyLength | bacpypes/bsll/bslpdu.py:43-106 | the length each class sets (6 for a code, 5 + field, 4 + data, 5 + address + data) counts the header and exactly the body encode writes |
| Bslpdu.BodyRoundTrip | bacpypes/bsll/bslpdu.py:43-114 | a body encode wrote decodes, under its own registered function, back to the same message |
| Bslpdu.BsllRoundTrip | bacpypes/bsll/bslpdu.py:14-28 | a message of a registered class encoded into a BSLPDU and read back by the multiplexer is the same message |
| Bslpdu.UnregisteredRejected | bacpypes/bsll/bslpdu.py:117-130 | a message of a class without the decorator is encoded, but the receiver's lookup raises KeyError |
| Bslpdu.AddressRequired | bacpypes/bsll/bslpdu.py:97-104 | an addressed message without an address fails with AttributeError, and one whose address has no octets with TypeError, before anything is written |
| Bslpdu.BoundNameAsWritten | bacpypes/bsll/registry.py:17-18 | the decorator returns nothing, so every decorated class name is bound to None |
| Bslpdu.BoundName | bacpypes/bsll/registry.py:17-18 | a decorator that returns its class leaves every name bound to the class |
| Bslpdu.ResultResponseAsWritten | bacpypes/bsll/tcp_server_mux.py:121 | with `Result` bound to None, building any Result response raises TypeError |
| Bslpdu.ResultResponse | bacpypes/bsll/bslci.py:70-90 | with the corrected decorator a Result of any 16-bit code is six octets on the wire and reads back as that code |
| Bslpdu.PutBody | bacpypes/bsll/bslpdu.py:43-106 | each class's encode appends exactly EncodeBody of the message |
| Bslpdu.GetBody | bacpypes/bsll/bslpdu.py:50-114 | each registered class's decode reads exactly DecodeBody |
| Bslpdu.BSLPDU.constructor | bacpypes/bsll/bslci.py:35-39 | a new BSLPDU has type 0x83, no function, no length and no data |
| Bslpdu.BSLPDU.Encode | bacpypes/bsll/bslpdu.py:22-24 | the header, checked against the data length, then the data |
| Bslpdu.BSLPDU.Decode | bacpypes/bsll/bslpdu.py:26-28 | the header, then all that is left as the data; the buffer is emptied |
| Bslpdu.BSLPDU.EncodeMessage | bacpypes/bsll/bslpdu.py:97-106 | the length is worked out and the header fields copied in, then the body is written; a missing address changes nothing |
| Bslpdu.BSLPDU.DecodeMessage | bacpypes/bsll/bslpdu.py:108-114 | the class registered for the function decodes the data |
| Packetize.Find | bacpypes/bsll/utils.py:19 | the index of the first 0x83, or -1 exactly when there is none |
| Packetize.PacketizeSpec | bacpypes/bsll/utils.py:14-33 | nothing without a 0x83; otherwise the octets before the first 0x83 are dropped, and a packet is returned exactly when the header is complete and the whole length has arrived, and packet followed by rest is the trimmed input |
| Packetize.PacketizeAsWrittenFails | bacpypes/bsll/utils.py:19 | as written, `bytes.find` with a str argument raises TypeError, so no buffer is ever framed |
| Packetize.PacketizeFrames | bacpypes/bsll/utils.py:14-33 | an encoded BSLL message is cut out of the stream, whatever garbage without 0x83 precedes it and whatever follows |
| Packetize.EncodedFrame | bacpypes/bsll/bslci.py:47-55 | an encoded message starts with 0x83 and carries its own length |
| Packetize.PacketizeAt | bacpypes/bsll/utils.py:23-33 | a frame that starts with 0x83 and carries its own length is cut out exactly |
| Packetize.FindAfter | bacpypes/bsll/utils.py:19 | the first 0x83 is found right after garbage that contains none |
| Packetize.ShortLengthFramesPartHeader | bacpypes/bsll/utils.py:25-33 | a length field below 4 frames a packet of that many octets, shorter than the header, and the rest starts inside the header |
| Packetize.ShortLengthMakesNoProgress | bacpypes/bsll/utils.py:29-33 | a length field of 0 frames an empty packet and leaves the whole input as the rest |
| Stations.StationOctets | bacpypes/link/station.py:15-24 | an int in 0..255 is one octet, bytes are taken as they are; an int out of range is a ValueError and anything else a TypeError |
| Stations.LocalStation | bacpypes/link/station.py:12-24 | a local station with no network and exactly the station's octets, or the octets' error |
| Stations.NetworkNumber | bacpypes/link/station.py:32-35 | a network number is accepted exactly when it is an int in 0..65534; otherwise TypeError for a non-int and ValueError for one out of range |
| Stations.RemoteStation | bacpypes/link/station.py:31-47 | a remote station on exactly that network with exactly the octets, and the network is checked before the address |
| Stations.RemoteBroadcast | bacpypes/link/broadcast.py:22-30 | a remote broadcast on exactly that network, no octets, when the network is valid |
| Stations.LocalStationIsDecoded | bacpypes/link/address.py:96-106 | LocalStation of an int or bytes is the address the one-argument Address constructor decodes |
| Stations.RemoteStationIsMoved | bacpypes/link/address.py:65-69 | RemoteStation on a valid network is the two-argument Address constructor's local station moved onto that network |
| Stations.StationsPrintBack | bacpypes/link/address.py:287-323 | every local or remote station with at least one octet, and every remote broadcast, prints as text that decodes back to the same address |
| Addresses.AddrLen | bacpypes/link/address.py:96-283 | addrLen is set exactly when addrAddr is, and is its length |
| Addresses.DigitEnd | bacpypes/link/address.py:26 | the run of digits a `\d+` group takes: all digits, and it stops at the end or before a non-digit |
| Addresses.FirstColon | bacpypes/link/address.py:172 | the first colon `split(':')` cuts at, or the length when there is none |
| Addresses.DotRun | bacpypes/link/address.py:26 | a `\d+\.` starting at i: at least one digit, then the dot |
| Addresses.MatchRuns | bacpypes/link/address.py:26 | n digit runs separated by dots, each non-empty, ending at the end or before a non-digit |
| Addresses.MatchQuad | bacpypes/link/address.py:26 | `\d+\.\d+\.\d+\.\d+`: four non-empty digit runs |
| Addresses.NetPrefix | bacpypes/link/address.py:26 | the optional `(\d+):` group holds only digits |
| Addresses.MatchIpTail | bacpypes/link/address.py:26 | the optional mask and port groups hold only digits |
| Addresses.MatchIpParts | bacpypes/link/address.py:26 | every group `ip_address_mask_port_re` matches is digits, with exactly four runs in the quad |
| Addresses.EthernetOctets | bacpypes/link/address.py:147-150 | `xtob` of an ethernet address is six octets |
| Addresses.InetAtonQuad | bacpypes/link/address.py:137 | `inet_aton` accepts four decimal numbers exactly when each is at most 255 and gives those four octets; otherwise OSError |
| Addresses.DecodeAddress | bacpypes/link/address.py:76-117 | an int is accepted exactly when it is in 0..255, bytes become a local station with those octets, a non-string form is a local station without network, and an unsupported type is a TypeError |
| Addresses.DecodeAddressOnNet | bacpypes/link/address.py:65-74 | succeeds exactly when the argument decodes to a local station or local broadcast, which becomes the remote station or remote broadcast on that network with the same octets; any other form is a ValueError |
| Addresses.QuadStrings | bacpypes/link/address.py:299 | the four octets printed in decimal are four digit runs |
| Addresses.Str | bacpypes/link/address.py:287-323 | `Null`, `*`, `*:*` and `N:*` for the null and broadcast forms; an address type outside 0..5 is a TypeError |
| Addresses.DecodeStringSkips | bacpypes/link/address.py:119-170 | a string that starts with a digit and is not an IP address, ethernet address or all digits goes on to the `N:` forms |
| Addresses.DecimalRoundTrip | bacpypes/link/address.py:152-158 | an octet in decimal decodes to the one-octet local station |
| Addresses.HexRoundTrip | bacpypes/link/address.py:184-187 | `0x` and the hex of any non-empty octets decodes to the local station with those octets |
| Addresses.ModernHexText | bacpypes/link/address.py:184-187 | any text of `0x` followed by pairs of hex digits decodes to the local station holding the octets those pairs spell |
| Addresses.NetStarRoundTrip | bacpypes/link/address.py:160-168 | `N:*` for N below 65535 decodes to the remote broadcast on N |
| Addresses.NetNumberRoundTrip | bacpypes/link/address.py:170-182 | `N:a` decodes to the remote station on N with the one octet a |
| Addresses.NetHexRoundTrip | bacpypes/link/address.py:195-204 | `N:0x...` decodes to the remote station on N with those octets |
| Addresses.NetHexForm | bacpypes/link/address.py:147-204 | `N:0x...` is none of the earlier forms and is taken by the remote modern-hex branch |
| Addresses.InetAtonQuadStrings | bacpypes/link/address.py:137 | four octets printed in decimal read back through `inet_aton` as the same octets |
| Addresses.UnpackIpAddr | bacpypes/link/address.py:39-43 | the tuple `unpack_ip_addr` gives for six octets decodes back to the local station with those octets |
| Addresses.InetAtonDottedQuad | bacpypes/link/address.py:137 | a dotted quad reads back through `inet_aton` as its four octets |
| Addresses.DecodeTupleString | bacpypes/link/address.py:259-283 | a `(host, port)` tuple with a non-empty host is the local station of the host's four octets followed by the port in two octets |
| Addresses.PortPart | bacpypes/link/address.py:300-301 | the port group of a printed station, when there is one, is digits |
| Addresses.IpRoundTrip | bacpypes/link/address.py:119-145 | a BACnet/IP station written `[N:]a.b.c.d[:port]` decodes to the same station, remote exactly when N is present |
| Addresses.LocalStationRoundTrip | bacpypes/link/address.py:292-304 | the text of a local station with at least one octet decodes back to that station |
| Addresses.RemoteStationRoundTrip | bacpypes/link/address.py:307-319 | the text of a remote station with at least one octet decodes back to that station |
| Addresses.RemoteIpRoundTrip | bacpypes/link/address.py:312-316 | a six-octet remote station with a port in 47808..47823, printed as `N:a.b.c.d[:port]`, decodes back to that station |
| Addresses.BroadcastRoundTrip | bacpypes/link/address.py:82-93 | the local and global broadcasts print as `*` and `*:*` and decode back to themselves |
| Addresses.StrRoundTrip | bacpypes/link/address.py:287-323 | `decode_address(str(a))` is `a` for the local, global and remote broadcasts and for every local or remote station with at least one octet, on a network below 65535 |
| Ssm.OptMin | bacpypes/app/client_ssm.py:219 | `min` of two fields fails with TypeError exactly when one is unset, and otherwise is the smaller of the two |
| Ssm.SegmentCount | bacpypes/app/client_ssm.py:70-77 | one segment for no data, otherwise the smallest count of `size` pieces that holds the data; data with a zero size is a ZeroDivisionError |
| Ssm.GetSegment | bacpypes/app/ssm.py:84-124 | no context, or an index at or past the segment count, is a RuntimeError, as is a context that is neither a confirmed request nor a complex ack; an unset count or size is a TypeError and an unknown remote device an AttributeError; a confirmed request segment carries the transaction's maximum segments, the access point's maximum APDU and segment acceptance, and the invoke ID; a complex ack segment keeps the context's service and invoke ID; each goes to the remote device with the index-th slice of the octets, and unless there is one segment it is marked segmented, with more-follows for all but the last, the index modulo 256 as sequence number and the proposed window |
| Ssm.SegmentShape | bacpypes/app/ssm.py:84-124 | no segment without a context or past the last one; a segment keeps the context's type and service, goes to the remote device, is marked segmented with more following and sequence number modulo 256 exactly when there is more than one segment, and carries its own slice of the data |
| Ssm.JoinedPrefix | bacpypes/app/ssm.py:121-122 | the first n slices of `size` joined are the first n * size octets, or all of them |
| Ssm.PrefixJoin | bacpypes/app/ssm.py:121-122 | the octets before an offset followed by the slice at that offset are the octets up to the slice's end |
| Ssm.SegmentsReassemble | bacpypes/app/ssm.py:84-124 | every segment below the count can be cut, and the segments joined in order give back exactly the context's data |
| Ssm.InWindow | bacpypes/app/ssm.py:137-139 | an unset operand is a TypeError; otherwise `(seqA - seqB + 256) % 256 < actualWindowSize` |
| Ssm.WithinWindow | bacpypes/app/ssm.py:137-139 | for 8-bit sequence numbers, `a` is in the window that starts at `b` exactly when it is one of the w numbers b, b + 1, ... modulo 256 |
| Ssm.SSM.constructor | bacpypes/app/ssm.py:21-40 | a new transaction is idle with every field unset except the remote device and the access point's maximum segments accepted |
| Ssm.SSM.StartTimer | bacpypes/app/ssm.py:42-57 | the pending timeout is replaced by the new one and nothing else changes |
| Ssm.SSM.SetState | bacpypes/app/ssm.py:62-77 | leaving COMPLETED or ABORTED is a RuntimeError that changes nothing; otherwise the state changes and the timer is stopped, then restarted exactly when a non-zero time is given |
| Ssm.SSM.AppendSegment | bacpypes/app/ssm.py:126-135 | the segment's octets go at the end of the context's data and nothing else changes; with no context it is a RuntimeError |
| Ssm.SSM.FillWindow | bacpypes/app/ssm.py:141-152 | the segments sent are the window cut from the context (FillIsWindow), and all segments are marked sent exactly when the last one went |
| Ssm.SSM.SendNextWindow | bacpypes/app/ssm.py:141-152 | the window that starts at the requested segment is sent as FillWindow sends it |
| Ssm.CutWindow | bacpypes/app/ssm.py:145-152 | the loop of `FillWindow` computes exactly the window specification: up to w segments, stopping after the one without more following or at the first that cannot be cut |
| Ssm.FillIsWindow | bacpypes/app/ssm.py:141-152 | what is sent is the consecutive segments from seqNum, at most the window size, each but the last with more following; it stops short only after the final segment, and an error is that of the first segment that could not be cut |
| Ssm.FillAdvance | bacpypes/app/ssm.py:145-152 | one pass of the loop: an error ends the window, a segment without more following is the last one sent, and any other goes on to the next index |
| ClientSsm.NewClientAlwaysFails | bacpypes/app/client_ssm.py:16-22 | as written the constructor reads `self.device_info`, which nothing sets, so every client transaction fails with AttributeError |
| ClientSsm.RequestSegmentSize | bacpypes/app/client_ssm.py:55-66 | the access point's own limit when nothing is known of the server; otherwise at most the server's largest APDU and, when known, its largest NPDU, and equal to one of them |
| ClientSsm.Refusal | bacpypes/app/client_ssm.py:78-102 | a request of more than one segment is refused with segmentation-not-supported exactly when the local device cannot transmit or the known server cannot receive segments, and with APDU-too-long exactly when the server said it takes fewer segments; otherwise it goes out |
| ClientSsm.ClientSSM.constructor | bacpypes/app/client_ssm.py:15-22 | corrected (see Findings) to read the remote device from the argument and to acquire by its device instance: a new client transaction is idle with a retry count of zero and the client invariant; the record the cache finds for the remote device is acquired, its reference count raised by one, and no other record changes |
| ClientSsm.ClientSSM.SetState | bacpypes/app/client_ssm.py:24-33 | leaving COMPLETED or ABORTED is a RuntimeError that changes nothing; otherwise the state and timer change, and entering COMPLETED or ABORTED releases the record the transaction acquired, with the release's outcome |
| ClientSsmProperties.TransactionLifeBalances | bacpypes/app/client_ssm.py:15-33 | a client transaction made and then ended leaves every reference count of the cache as it was |
| ClientSsm.ClientSSM.Request | bacpypes/app/client_ssm.py:35-43 | the APDU goes down with no source and the peer as destination |
| ClientSsm.ClientSSM.Response | bacpypes/app/client_ssm.py:123-131 | the APDU goes up with the peer as source and no destination |
| ClientSsm.ClientSSM.Abort | bacpypes/app/client_ssm.py:163-169 | the transaction is aborted, its timer stopped, and the abort APDU with its invoke ID and the reason returned; a finished transaction raises RuntimeError and changes nothing |
| ClientSsm.ClientSSM.AbortAndTell | bacpypes/app/client_ssm.py:198-200 | abort, send the abort to the peer when asked, then to the application |
| ClientSsm.ClientSSM.Finish | bacpypes/app/client_ssm.py:202-203 | the transaction ends in the given state and the APDU goes to the application |
| ClientSsm.ClientSSM.Indication | bacpypes/app/client_ssm.py:45-121 | a request that is not a confirmed request is a RuntimeError; otherwise it becomes the context, is cut into segments, is refused or sent as IndicationStep says |
| ClientSsm.ClientSSM.Start | bacpypes/app/client_ssm.py:78-102 | a refused request is aborted towards the application; any other is sent |
| ClientSsm.ClientSSM.SendFirst | bacpypes/app/client_ssm.py:104-121 | one segment waits for the confirmation with all sent, several wait for the segment ack from sequence 0; then segment 0 goes to the peer |
| ClientSsm.ClientSSM.OnSegmentedRequest | bacpypes/app/client_ssm.py:171-232 | a segment ack, simple ack, complex ack, error, reject or abort is handled as SegmentedRequestStep says; any other APDU is a RuntimeError |
| ClientSsm.ClientSSM.OnSegmentAck | bacpypes/app/client_ssm.py:176-193 | a duplicate ack restarts the timer, the final ack waits for the confirmation, any other sends the next window (`fill_window` read as `FillWindow`) |
| ClientSsm.ClientSSM.OnSegmentedAck | bacpypes/app/client_ssm.py:205-222 | a complex ack before every segment has gone is aborted both ways; an unsegmented one completes; a segmented one starts reassembly with the smaller window |
| ClientSsm.ClientSSM.SegmentedRequestTimeout | bacpypes/app/client_ssm.py:234-244 | with segment retries left the count goes up and the window is sent again (`fill_window` read as `FillWindow`); otherwise the transaction aborts for want of a response |
| ClientSsm.ClientSSM.OnAwaitConfirmation | bacpypes/app/client_ssm.py:246-305 | an abort aborts; a simple ack, error or reject completes; a complex ack is handled; a segment ack restarts the timer; anything else is a RuntimeError |
| ClientSsm.ClientSSM.OnAwaitComplexAck | bacpypes/app/client_ssm.py:262-297 | an unsegmented ack completes; a segmented ack is refused when the local device cannot receive segments, starts reassembly at sequence 0, and is aborted both ways otherwise |
| ClientSsm.ClientSSM.StartReassembly | bacpypes/app/client_ssm.py:280-290 | the first segment becomes the context, sequence numbers start at 0, and a segment ack goes to the peer |
| ClientSsm.ClientSSM.AwaitConfirmationTimeout | bacpypes/app/client_ssm.py:307-323 | with retries left the request is started again and keeps the raised retry count; otherwise the transaction aborts for want of a response |
| ClientSsm.ClientSSM.OnSegmentedConfirmation | bacpypes/app/client_ssm.py:325-349 | anything but a segmented complex ack is aborted both ways; an out-of-order segment is negatively acknowledged with the last good sequence number |
| ClientSsm.ClientSSM.TakeSegment | bacpypes/app/client_ssm.py:350-353 | the segment's octets are appended and the last sequence number goes up modulo 256 |
| ClientSsm.ClientSSM.AckSegment | bacpypes/app/client_ssm.py:354-372 | the final segment is acknowledged and completes, handing the whole APDU up; the last in a window is acknowledged and opens the next window; otherwise the timer is restarted |
| ClientSsm.ClientSSM.SegmentedConfirmationTimeout | bacpypes/app/client_ssm.py:374-376 | the transaction aborts for want of a response and tells the application |
| ClientSsm.ClientSSM.Confirmation | bacpypes/app/client_ssm.py:133-144 | the handler of the current state is called; in any other state it is a RuntimeError; the client invariant is kept |
| ClientSsm.ClientSSM.HandleTimeout | bacpypes/app/client_ssm.py:146-161 | the timeout handler of the current state is called, a finished transaction ignores it, an idle one is a RuntimeError; the client invariant is kept |
| ClientSsm.NewClientAsWritten | bacpypes/app/client_ssm.py:16-22 | as written, making a client transaction raises AttributeError for the unset `device_info` |
| ClientSsm.AcquireRecordAsWritten | bacpypes/app/client_ssm.py:21-22 | with `device_info` taken from the argument, passing the record itself to `acquire` is a TypeError, and the cache and every reference count stay as they were |
| ClientSsm.Aborting | bacpypes/app/client_ssm.py:163-200 | an aborted transaction moves to ABORTED and hands the abort to the application, sending it to the peer first when both ends are told |
| ClientSsm.Ending | bacpypes/app/client_ssm.py:202-203 | a finished transaction moves to its final state and hands the APDU to the application |
| ClientSsm.IndicationStep | bacpypes/app/client_ssm.py:45-121 | a confirmed request from the application becomes the segmentation context with the invoke ID and the segment size of the server; anything else is a RuntimeError; a request too long to count is an error; otherwise the request is refused or its first segment sent |
| ClientSsm.StartStep | bacpypes/app/client_ssm.py:78-102 | a request the local device or the server cannot segment, or with more segments than the server takes, is aborted towards the application only; any other has its counters primed and its first segment sent |
| ClientSsm.Primed | bacpypes/app/client_ssm.py:104-113 | a whole request has sent all its segments and a retry count of 0; a segmented one has not, with both retry counts and the first sequence number at 0 and no window yet |
| ClientSsm.SendFirstStep | bacpypes/app/client_ssm.py:104-121 | a whole request waits for the confirmation with the APDU timeout, a segmented one for a segment ack with the segment timeout, and segment 0 goes to the peer |
| ClientSsm.SegmentedRequestStep | bacpypes/app/client_ssm.py:171-232 | corrected (see Findings bacpypes/app/client_ssm.py:229): while the request goes out in segments: a segment ack is handled in the window; a simple or complex ack before all was sent aborts both ways; after, it completes, or a segmented complex ack starts reassembly; an error, reject or abort completes the transaction; anything else is a RuntimeError |
| ClientSsm.SegmentAckStep | bacpypes/app/client_ssm.py:176-193 | the server's window becomes the actual window; an ack outside the window only restarts the segment timer; one inside waits for the confirmation when all was sent, else sends the window after the acknowledged segment |
| ClientSsm.SegmentedAckStep | bacpypes/app/client_ssm.py:205-222 | a segmented complex ack becomes the reassembly context, with the smaller of its window and the proposed one and both sequence numbers at 0, awaiting the next segment with the segment timeout |
| ClientSsm.SegmentedRequestProblemAsWritten | bacpypes/app/client_ssm.py:226-230 | as written, an error, reject or abort during a segmented request completes the transaction and raises TypeError, with nothing passed to the application |
| ClientSsm.AwaitConfirmationStep | bacpypes/app/client_ssm.py:246-305 | while waiting: an abort aborts the transaction and a simple ack, error or reject completes it, each handed to the application; a complex ack is taken whole or starts reassembly; a segment ack only restarts the segment timer; any other type is a RuntimeError |
| ClientSsm.AwaitComplexAckStep | bacpypes/app/client_ssm.py:262-297 | an unsegmented complex ack completes the transaction; a segmented one is aborted towards the application when the local device takes no segments, aborted both ways when it is not segment 0, and otherwise starts reassembly |
| ClientSsm.Reassembling | bacpypes/app/client_ssm.py:280-290 | the first segment becomes the reassembly context with the server's window, both sequence numbers at 0, is acknowledged to the peer and waits for more with the segment timeout |
| ClientSsm.SegmentedConfirmationStep | bacpypes/app/client_ssm.py:325-349 | while collecting a segmented ack: anything but a segmented complex ack aborts both ways; a segment out of order is refused by a negative segment ack of the last one taken; one in order is taken |
| ClientSsm.TakeSegmentStep | bacpypes/app/client_ssm.py:350-353 | a segment in order has its octets appended to the context and becomes the last sequence number, then is acknowledged as the window requires |
| ClientSsm.AckSegmentStep | bacpypes/app/client_ssm.py:354-372 | the final segment is acknowledged and the whole ack completes the transaction; the one that closes the window is acknowledged and opens the next; any other only restarts the timer |
| ClientSsm.SegmentedRequestTimeoutStep | bacpypes/app/client_ssm.py:234-244 | while segment retries are left, the count goes up by one and the window from the first unacknowledged segment is sent again; after the last retry the transaction is aborted for no response, towards the application only |
| ClientSsm.AwaitConfirmationTimeoutStep | bacpypes/app/client_ssm.py:307-323 | while retries are left the request is started again from its context with the retry count one higher, kept across the restart; after the last, the transaction is aborted for no response |
| ClientSsm.SegmentedConfirmationTimeoutStep | bacpypes/app/client_ssm.py:374-376 | a segmented ack that stops coming aborts the transaction for no response, towards the application only |
| ClientSsm.ConfirmationStep | bacpypes/app/client_ssm.py:133-144 | an APDU from the peer is handled by the current state's handler; in IDLE, COMPLETED or ABORTED it is a RuntimeError |
| ClientSsm.TimeoutStep | bacpypes/app/client_ssm.py:146-161 | a timeout is handled by the current state's timeout handler; COMPLETED or ABORTED ignore it; IDLE raises RuntimeError |
| ClientSsm.IndicationKeepsInvariant | bacpypes/app/client_ssm.py:45-121 | starting a request keeps the fields each state needs set |
| ClientSsm.StartKeepsInvariant | bacpypes/app/client_ssm.py:78-121 | refusing or sending a request keeps the client invariant |
| ClientSsm.FillWindowKeepsInvariant | bacpypes/app/ssm.py:141-152 | filling a window keeps the client invariant |
| ClientSsm.SegmentedRequestKeepsInvariant | bacpypes/app/client_ssm.py:171-232 | every APDU while sending segments keeps the client invariant |
| ClientSsm.AwaitConfirmationKeepsInvariant | bacpypes/app/client_ssm.py:246-305 | every APDU while waiting for the confirmation keeps the client invariant |
| ClientSsm.SegmentedConfirmationKeepsInvariant | bacpypes/app/client_ssm.py:325-372 | every APDU during reassembly keeps the client invariant |
| ClientSsm.ConfirmationKeepsInvariant | bacpypes/app/client_ssm.py:133-144 | every APDU from the peer keeps the client invariant |
| ClientSsm.TimeoutKeepsInvariant | bacpypes/app/client_ssm.py:146-161 | every timeout keeps the client invariant |
| ClientSsm.AwaitConfirmationTimeoutKeepsInvariant | bacpypes/app/client_ssm.py:307-323 | a timeout while waiting for the confirmation keeps the client invariant |
| ClientSsmProperties.TerminalIsFinal | bacpypes/app/client_ssm.py:133-161 | a completed or aborted transaction refuses every APDU with RuntimeError and ignores every timeout, and a new request cannot change its state |
| ClientSsmProperties.UnsegmentedRequestSentWhole | bacpypes/app/client_ssm.py:104-121 | a request that fits in one segment goes to the peer as one unsegmented confirmed request with the same service, invoke ID and octets, and the transaction waits for the confirmation under the APDU timeout |
| ClientSsmProperties.AckedWindowSendsNext | bacpypes/app/client_ssm.py:187-193 | a segment ack in the window while segments remain moves the window start after the acknowledged segment and sends exactly the segments from there, in order (`fill_window` read as `FillWindow`) |
| ClientSsmProperties.RetriesBounded | bacpypes/app/client_ssm.py:307-323 | a timeout with retries left counts one more retry and keeps the request; the timeout after the last retry aborts with no-response, sending nothing to the peer and the abort to the application |
| ClientSsmProperties.RetryKeepsRequest | bacpypes/app/client_ssm.py:313-319 | the saved retry count survives the restarted request, and the request stays the context |
| ClientSsmProperties.IndicationKeepsSegment | bacpypes/app/client_ssm.py:54 | a request that starts without error is the transaction's context |
| ClientSsmProperties.SegmentedRequestErrorLost | bacpypes/app/client_ssm.py:225-230 | an error, reject or abort while sending segments should complete the transaction and reach the application; as written `self.response = apdu` makes the next call a TypeError and nothing is delivered |
| ClientSsmProperties.ReassemblyInOrder | bacpypes/app/client_ssm.py:325-372 | receiving the remaining segments in order completes the transaction, and the application gets the complex ack whose octets are the first segment's followed by every later segment's, in order |
| ClientSsmProperties.ReceiveStep | bacpypes/app/client_ssm.py:133-144 | an APDU handled without error keeps the client invariant and hands the rest to the state it leaves |
| ClientSsmProperties.FinalSegment | bacpypes/app/client_ssm.py:350-361 | the last segment in order is appended, completes the transaction and hands the whole ack up |
| ClientSsmProperties.MidSegment | bacpypes/app/client_ssm.py:350-372 | a segment in order with more following is appended, moves the last sequence number on, keeps the window and sends nothing up |
| ServerSsm.ResponseSegmentSize | bacpypes/app/server_ssm.py:97 | at most the remote device's largest APDU and, when known, its largest NPDU, and equal to one of them |
| ServerSsm.Synced | bacpypes/app/server_ssm.py:176-193 | after a request with segmented-response-accepted the device receives segments, transmits them exactly when it did before, and nothing else about it changes; a device that already received them is left as it was |
| ServerSsm.ServerSSM.constructor | bacpypes/app/server_ssm.py:16-17 | corrected (see Findings) to acquire the remote device's record by its device instance, as the corrected client transaction does: a new server transaction is idle with every field unset except the remote device and the maximum segments accepted, and the record found is acquired |
| ServerSsm.ServerSSM.SetState | bacpypes/app/server_ssm.py:19-28 | corrected to call `release` (see Findings): leaving COMPLETED or ABORTED is a RuntimeError that changes nothing; otherwise the state and the timer change, and entering COMPLETED or ABORTED releases the record the transaction acquired |
| ServerSsmProperties.TransactionLifeBalances | bacpypes/app/server_ssm.py:16-28 | corrected: a server transaction made and then ended leaves every reference count of the cache as it was |
| ServerSsm.ServerSSM.Request | bacpypes/app/server_ssm.py:30-38 | the APDU goes to the application with the remote device as source |
| ServerSsm.ServerSSM.Response | bacpypes/app/server_ssm.py:56-64 | the APDU goes to the remote device's address |
| ServerSsm.ServerSSM.Abort | bacpypes/app/server_ssm.py:159-167 | the transaction is aborted and the server's abort APDU with its invoke ID and the reason returned; a finished transaction raises RuntimeError and changes nothing |
| ServerSsm.ServerSSM.AbortAndTell | bacpypes/app/server_ssm.py:235-237 | abort, then send the abort to the application and to the peer as asked |
| ServerSsm.ServerSSM.Indication | bacpypes/app/server_ssm.py:40-54 | the handler of the current state is called and a finished transaction ignores the APDU; the server invariant is kept |
| ServerSsm.ServerSSM.Dispatch | bacpypes/app/server_ssm.py:44-54 | the dispatch on the state computes IndicationStep |
| ServerSsm.ServerSSM.OnIdle | bacpypes/app/server_ssm.py:169-203 | anything but a confirmed request is a RuntimeError; otherwise the invoke ID is saved, the transaction's copy of the device record synced with the request, and the maximum segments taken from it |
| ServerSsm.ServerSSM.OnRequest | bacpypes/app/server_ssm.py:204-213 | an unsegmented request goes to the application and waits for the response; a segmented one is aborted when the local device takes no segments |
| ServerSsm.ServerSSM.StartReassembly | bacpypes/app/server_ssm.py:214-225 | the first segment becomes the context, the window is the smaller of the peer's and the local one, and segment 0 is acknowledged |
| ServerSsm.ServerSSM.OnSegmentedRequest | bacpypes/app/server_ssm.py:227-244 | an abort completes and is sent back; anything but a segment of a confirmed request is aborted both ways |
| ServerSsm.ServerSSM.TakeRequestSegment | bacpypes/app/server_ssm.py:245-276 | an out-of-order segment is negatively acknowledged; one in order is appended; the last is acknowledged and the whole request goes to the application; the last in a window opens the next |
| ServerSsm.ServerSSM.OnAwaitResponse | bacpypes/app/server_ssm.py:282-292 | a repeated request is ignored, an abort aborts and goes to the application, anything else is a RuntimeError |
| ServerSsm.ServerSSM.OnSegmentedResponse | bacpypes/app/server_ssm.py:302-326 | a segment ack is handled, an abort completes and is sent back, anything else is a RuntimeError |
| ServerSsm.ServerSSM.OnResponseSegmentAck | bacpypes/app/server_ssm.py:304-320 | a duplicate ack restarts the timer, the final ack completes, any other sends the next window with the peer's window size |
| ServerSsm.ServerSSM.Confirmation | bacpypes/app/server_ssm.py:66-138 | the application's answer is handled as ConfirmationStep says, in any state; the server invariant is kept |
| ServerSsm.ServerSSM.Answer | bacpypes/app/server_ssm.py:75-88 | an abort aborts and a simple ack, error or reject completes the transaction, and goes to the peer; a finished transaction is a RuntimeError |
| ServerSsm.ServerSSM.OnComplexAck | bacpypes/app/server_ssm.py:90-107 | the ack becomes the context and is cut by the response segment size |
| ServerSsm.ServerSSM.OnCountedAck | bacpypes/app/server_ssm.py:108-128 | an ack of several segments is refused when the local device cannot send or the peer cannot take segments; otherwise the window starts at 0 with size 1 |
| ServerSsm.ServerSSM.SendAnswer | bacpypes/app/server_ssm.py:130-136 | one segment goes whole and completes; several send segment 0 and wait for the segment acks |
| ServerSsm.ServerSSM.HandleTimeout | bacpypes/app/server_ssm.py:140-157 | the timeout handler of the current state is called; the server invariant is kept |
| ServerSsm.ServerSSM.SegmentedResponseTimeout | bacpypes/app/server_ssm.py:328-336 | with retries left the count goes up and the window is sent again; otherwise the transaction aborts |
| ServerSsm.SetStateAsWritten | bacpypes/app/server_ssm.py:19-28 | as written, entering COMPLETED or ABORTED makes the state change and then raises AttributeError for the missing `release_device_info` |
| ServerSsm.ResponseSegmentSizeAsWritten | bacpypes/app/server_ssm.py:97 | as written, the segment size is the smaller of the remote device's largest NPDU and largest APDU, and fails when the largest NPDU is unknown |
| ServerSsm.Aborting | bacpypes/app/server_ssm.py:159-167 | an aborted transaction moves to ABORTED; the server's abort goes to the application and to the peer as asked |
| ServerSsm.IdleStep | bacpypes/app/server_ssm.py:169-203 | only a confirmed request starts a transaction (anything else is a RuntimeError); its invoke ID is kept; without a remote device it is an AttributeError; otherwise the remote device's segmentation is synced when the request says it accepts segments, the peer's maximum segments are kept, and it is handled whole or as the first segment |
| ServerSsm.RequestStep | bacpypes/app/server_ssm.py:204-213 | an unsegmented request goes to the application and the transaction awaits the response with the application timeout; a segmented one is aborted with segmentation-not-supported sent to the peer when the local device takes no segments, else it starts reassembly |
| ServerSsm.ReassemblyStep | bacpypes/app/server_ssm.py:214-225 | the first segment becomes the context, the window the smaller of the peer's and the local device's, both sequence numbers at 0, segment 0 is acknowledged and the transaction waits for more with the segment timeout |
| ServerSsm.SegmentedRequestStep | bacpypes/app/server_ssm.py:227-244 | while a segmented request comes in: an abort completes the transaction and is passed on; anything but a segment of a confirmed request aborts both ways; a segment is taken in order |
| ServerSsm.TakeRequestSegmentStep | bacpypes/app/server_ssm.py:245-276 | a segment out of order is refused with a negative segment ack and the timer restarted; one in order is appended; the last segment is acknowledged and the whole request goes to the application, which the transaction then awaits; the one that closes the window is acknowledged and opens the next; any other only restarts the timer |
| ServerSsm.AwaitResponseStep | bacpypes/app/server_ssm.py:282-292 | while the application answers: a repeated request is ignored, an abort aborts the transaction towards the application, anything else is a RuntimeError |
| ServerSsm.SegmentedResponseStep | bacpypes/app/server_ssm.py:302-326 | while the answer goes out in segments: a segment ack is handled in the window; an abort completes the transaction and is passed on; anything else is a RuntimeError |
| ServerSsm.ResponseSegmentAckStep | bacpypes/app/server_ssm.py:304-320 | an ack outside the window only restarts the timer; one inside completes the transaction when all was sent, else sends the window after the acknowledged segment with the peer's window size |
| ServerSsm.IndicationStep | bacpypes/app/server_ssm.py:40-54 | an APDU from the peer is handled by the current state's handler; in COMPLETED or ABORTED it is ignored |
| ServerSsm.AnswerStep | bacpypes/app/server_ssm.py:75-88 | the transaction moves to its final state and the APDU goes to the peer; leaving COMPLETED or ABORTED is a RuntimeError with nothing sent |
| ServerSsm.ConfirmationStep | bacpypes/app/server_ssm.py:66-138 | the application's answer: an abort aborts the transaction and a simple ack, error or reject completes it, each sent to the peer; a complex ack is sent whole or in segments; anything else is a RuntimeError |
| ServerSsm.ComplexAckStep | bacpypes/app/server_ssm.py:90-107 | a complex ack becomes the segmentation context, cut to the response segment size; a size that cannot be computed is an error; otherwise it is refused or sent |
| ServerSsm.CountedAckStep | bacpypes/app/server_ssm.py:108-128 | an ack of several segments that the local device cannot send or the peer cannot take is aborted with segmentation-not-supported sent to the peer; otherwise the segment retry count and first sequence number start at 0, the proposed window is the local maximum and the actual window 1, and it is sent |
| ServerSsm.SendAnswerStep | bacpypes/app/server_ssm.py:130-136 | a whole ack is sent as it is and completes the transaction; a segmented one has its segment 0 sent and awaits segment acks with the segment timeout; a segment that cannot be cut is an error |
| ServerSsm.SegmentedResponseTimeoutStep | bacpypes/app/server_ssm.py:328-336 | while segment retries are left the count goes up and the window from the first unacknowledged segment is sent again; after the last the transaction moves to ABORTED |
| ServerSsm.TimeoutStep | bacpypes/app/server_ssm.py:140-157 | a segmented request that stops coming moves to ABORTED; an application that does not answer is sent a server-timeout abort; a segmented response is handled by its retry; COMPLETED and ABORTED ignore the timeout; IDLE raises RuntimeError |
| ServerSsm.IndicationKeepsInvariant | bacpypes/app/server_ssm.py:40-54 | every APDU from the peer keeps the fields each state needs set |
| ServerSsm.SegmentedResponseKeepsInvariant | bacpypes/app/server_ssm.py:302-326 | every APDU while sending segments keeps the server invariant |
| ServerSsm.FillWindowKeeps | bacpypes/app/ssm.py:141-152 | filling a window changes only what was sent and whether all of it was |
| ServerSsm.ConfirmationKeepsInvariant | bacpypes/app/server_ssm.py:66-138 | every answer from the application keeps the server invariant |
| ServerSsm.TimeoutKeepsInvariant | bacpypes/app/server_ssm.py:140-157 | every timeout keeps the server invariant |
| ServerSsmProperties.ReleaseFails | bacpypes/app/server_ssm.py:28 | as written every transition into COMPLETED or ABORTED fails with AttributeError after the state has changed; the corrected release is ServerSsm.ServerSSM.SetState, and ServerSsmProperties.TransactionLifeBalances proves it gives back every reference count |
| ServerSsmProperties.UnknownNpduLength | bacpypes/app/server_ssm.py:97 | as written `min` with the unknown largest NPDU of a new cache record is a TypeError; the corrected size is the default 1024 |
| ServerSsmProperties.IdleOutcome | bacpypes/app/server_ssm.py:169-225 | a confirmed request from an unknown device fails with AttributeError before anything is sent; from a known one it keeps the invoke ID, syncs segmentation in the transaction's copy of the device record, takes the maximum segments, and is passed up whole, refused or acknowledged as its first segment |
| ServerSsmProperties.AwaitResponseOutcome | bacpypes/app/server_ssm.py:282-292 | a repeated request changes nothing; an abort aborts the transaction, goes to the application and sends nothing to the peer |
| ServerSsmProperties.SimpleAnswerOutcome | bacpypes/app/server_ssm.py:75-88 | an abort, simple ack, error or reject from the application ends a live transaction, aborted for an abort and completed otherwise, and goes to the peer; a finished transaction raises RuntimeError and is unchanged |
| ServerSsmProperties.SmallAnswerSentWhole | bacpypes/app/server_ssm.py:130-133 | a complex ack that fits in one segment goes to the peer whole, completes the transaction and sends nothing up |
| ServerSsmProperties.ResponseAckSendsNext | bacpypes/app/server_ssm.py:314-320 | a segment ack in the window while segments remain moves the window after the acknowledged segment, takes the peer's window size, resets the retries and sends exactly the next segments in order |
| ServerSsmProperties.ResponseRetriesBounded | bacpypes/app/server_ssm.py:328-336 | a timeout with retries left counts one more and sends the window again from its first segment; after the last retry the transaction aborts and sends nothing |
| ServerSsmProperties.RequestReassemblyInOrder | bacpypes/app/server_ssm.py:245-265 | receiving the remaining segments of a request in order waits for the response, the application gets the request whose octets are all segments' in order, and the last thing sent is the final segment ack |
| ServerSsmProperties.ReceiveStep | bacpypes/app/server_ssm.py:40-54 | an APDU handled without error keeps the server invariant and hands the rest to the state it leaves |
| ServerSsmProperties.LastRequestSegment | bacpypes/app/server_ssm.py:253-265 | the last segment in order is appended, acknowledged, and the whole request goes to the application while the transaction awaits the response |
| ServerSsmProperties.MidRequestSegment | bacpypes/app/server_ssm.py:253-276 | a segment in order with more following is appended and moves the last sequence number on, keeping the device, invoke ID and window |
| StateMachineAp.Matches | bacpypes/app/state_machine_ap.py:61 | in either order of comparison, a transaction matches exactly when the invoke ID is equal and it has device information whose address is the one given |
| StateMachineAp.MatchesOrder | bacpypes/app/state_machine_ap.py:100-120 | only a missing address or missing device information raises; invoke ID first, a different ID is a plain no; address first, as for a repeated confirmed request, a transaction without device information raises AttributeError whatever the ID |
| StateMachineAp.LookupSpec | bacpypes/app/state_machine_ap.py:99-101 | in either comparison order, the for/break search finds the first transaction that matches with every one before it a plain no, finds none exactly when every comparison is a plain no, and fails exactly with the error of the first comparison that raises |
| StateMachineAp.FindTransaction | bacpypes/app/state_machine_ap.py:119-123 | the search loop computes exactly Lookup |
| StateMachineAp.LookupStops | bacpypes/app/state_machine_ap.py:119-121 | the search stops at the first transaction whose comparison is not a plain no |
| StateMachineAp.SearchFound | bacpypes/app/state_machine_ap.py:51-65 | an ID the search returns is one of the IDs it tries from the counter on, no client transaction to the address uses it, every ID tried before it is in use, and the counter is left just past it |
| StateMachineAp.SearchExhausted | bacpypes/app/state_machine_ap.py:57-59 | the search raises RuntimeError exactly when all 255 IDs it tries are in use, so the ID just before the starting counter is never handed out |
| StateMachineAp.CheckInvokeId | bacpypes/app/state_machine_ap.py:192-196 | a request's own invoke ID already used by a client transaction for the same destination is a RuntimeError; a free one passes |
| StateMachineAp.AssignInvokeId | bacpypes/app/state_machine_ap.py:189-196 | a confirmed request without an invoke ID gets the next free one for its destination from `get_next_invoke_id`, which also advances the counter; one with an invoke ID is checked by CheckInvokeId and left as it is |
| StateMachineAp.Search | bacpypes/app/state_machine_ap.py:53-65 | the while loop computes exactly SearchFrom and leaves the counter below 256 |
| StateMachineAp.Without | bacpypes/app/client_ssm.py:30 | `list.remove(tr)` of a transaction that finished leaves every other transaction, in order |
| StateMachineAp.StateMachineAccessPoint.constructor | bacpypes/app/state_machine_ap.py:18-49 | invoke IDs start at 1, there are no transactions, communication is enabled, the local device's settings replace the defaults, and the application timeout is 3000 |
| StateMachineAp.StateMachineAccessPoint.GetNextInvokeId | bacpypes/app/state_machine_ap.py:51-65 | the ID and new counter are SearchFrom's, and the transactions, communication control and settings are unchanged |
| StateMachineAp.StateMachineAccessPoint.Confirmation | bacpypes/app/state_machine_ap.py:67-164 | an APDU from the network is admitted by communication control and routed as InboundStep says: a new or repeated request to a server transaction, an unconfirmed request to the application, an answer, abort or segment ack to its transaction |
| StateMachineAp.StateMachineAccessPoint.SearchClients | bacpypes/app/state_machine_ap.py:119-125 | the route to the client transaction with the APDU's invoke ID and source, or nowhere |
| StateMachineAp.StateMachineAccessPoint.SearchServers | bacpypes/app/state_machine_ap.py:137-143 | the route to the server transaction with the APDU's invoke ID and source, or nowhere |
| StateMachineAp.StateMachineAccessPoint.SapIndication | bacpypes/app/state_machine_ap.py:166-210 | the application's request is admitted by communication control, gets an invoke ID, and opens a client transaction as OutboundStep says; an unconfirmed request goes straight down |
| StateMachineAp.StateMachineAccessPoint.SapConfirmation | bacpypes/app/state_machine_ap.py:212-231 | the application's answer goes to the server transaction with its invoke ID and destination; anything else is a RuntimeError |
| StateMachineAp.StateMachineAccessPoint.RemoveClient | bacpypes/app/client_ssm.py:28-30 | a finished client transaction leaves the list and nothing else changes |
| StateMachineAp.StateMachineAccessPoint.RemoveServer | bacpypes/app/server_ssm.py:24-26 | a finished server transaction leaves the list and nothing else changes |
| StateMachineApProperties.NextIdUnused | bacpypes/app/state_machine_ap.py:51-65 | an ID `get_next_invoke_id` hands out is below 256, used by no client transaction to the address, and the counter moves just past it |
| StateMachineApProperties.NoIdLeft | bacpypes/app/state_machine_ap.py:57-59 | "no available invoke ID" is raised exactly when the 255 IDs from the counter on are all in use for the address |
| StateMachineApProperties.InvokeIdInUse | bacpypes/app/state_machine_ap.py:192-196 | an explicit invoke ID already used towards the destination raises RuntimeError and changes nothing |
| StateMachineApProperties.AssignedIdUnused | bacpypes/app/state_machine_ap.py:189-196 | the request keeps its own invoke ID or gets one, which no client transaction to the destination has; only the counter may change |
| StateMachineApProperties.NewClientTransaction | bacpypes/app/state_machine_ap.py:188-208 | a new client transaction is appended last with an invoke ID no client transaction to the destination has, and it is the only change to the lists |
| StateMachineApProperties.OutboundKeepsUnique | bacpypes/app/state_machine_ap.py:188-208 | no two client transactions ever share an invoke ID and address |
| StateMachineApProperties.AppendFresh | bacpypes/app/state_machine_ap.py:206 | appending a transaction whose key no other has keeps the keys unique |
| StateMachineApProperties.RequestRouting | bacpypes/app/state_machine_ap.py:97-110 | with the address compared before the invoke ID, a repeated confirmed request goes to the server transaction that has it and changes nothing; a new one opens a server transaction, appended last |
| StateMachineApProperties.DevicelessServerBlocks | bacpypes/app/state_machine_ap.py:99-108 | a server transaction without device information stops every later confirmed request: none opens a transaction, each goes to an earlier transaction or raises, and with that transaction first every one raises AttributeError |
| StateMachineApProperties.InboundKeepsUnique | bacpypes/app/state_machine_ap.py:97-110 | no two server transactions ever share an invoke ID and address |
| StateMachineApProperties.AckRouting | bacpypes/app/state_machine_ap.py:114-162 | an answer, or an abort or segment ack from a server, goes to the client transaction with its invoke ID and source; an abort or segment ack from a client goes to the server transaction; it is dropped exactly when none matches, and the lists do not change |
| StateMachineApProperties.CommunicationControl | bacpypes/app/state_machine_ap.py:69-88 | with communication disabled only DeviceCommunicationControl, ReinitializeDevice and Who-Is come in and nothing goes out; with initiation disabled exactly I-Am goes out |
| StateMachineApProperties.AnswerRouting | bacpypes/app/state_machine_ap.py:212-231 | anything but an answer or abort is a RuntimeError; an answer is dropped exactly when no server transaction has its invoke ID and destination, and otherwise goes to one that does |
| StateMachineApProperties.RemoveKeepsUnique | bacpypes/app/client_ssm.py:30 | removing a finished transaction keeps the keys unique |
| DeviceInfos.Rekey | bacpypes/app/deviceinfo.py:119-127 | a key that has not changed leaves the cache alone; a changed one fails with KeyError exactly when the old entry is gone, and otherwise the old key is removed, the new one maps to the record, and every other entry is kept |
| DeviceInfos.Enter | bacpypes/app/deviceinfo.py:119-127 | as intended, a record never cached is entered under its key; otherwise as Rekey |
| DeviceInfos.DeviceInfoCache.constructor | bacpypes/app/deviceinfo.py:59-65 | a new cache is empty |
| DeviceInfos.DeviceInfoCache.UpdateDeviceInfoAsWritten | bacpypes/app/deviceinfo.py:107-130 | the record gets a zero reference count if it had none, a changed instance or address is re-keyed, and the current keys are remembered; a record never cached is not entered |
| DeviceInfos.DeviceInfoCache.UpdateDeviceInfo | bacpypes/app/deviceinfo.py:107-130 | the same, except that a record never cached is entered under its instance and its address |
| DeviceInfos.DeviceInfoCache.JamIAm | bacpypes/app/deviceinfo.py:78-97 | the record under the instance, else under the address, else a new record, gets the I-Am's instance, address, maximum APDU, segmentation and vendor; the cache and the other records are unchanged |
| DeviceInfos.DeviceInfoCache.IamDeviceInfoAsWritten | bacpypes/app/deviceinfo.py:71-100 | anything but an I-Am is a ValueError that changes nothing; a known device's record takes the I-Am's values; an unknown device gets a record that the cache never holds |
| DeviceInfos.DeviceInfoCache.IamDeviceInfo | bacpypes/app/deviceinfo.py:71-100 | as intended, an unknown device is entered under its instance and its address with the I-Am's values and a reference count of zero |
| DeviceInfos.DeviceInfoCache.Acquire | bacpypes/app/deviceinfo.py:132-151 | an int is looked up as an instance and a station address as an address; any other address or key is a TypeError; a record found has its reference count raised by one |
| DeviceInfos.DeviceInfoCache.Release | bacpypes/app/deviceinfo.py:153-161 | a count at zero is a RuntimeError and a record without one an AttributeError, with nothing changed; otherwise exactly that record's count goes down by one (`ReleaseStep`) |
| DeviceInfos.AcquireReleaseBalance | bacpypes/app/deviceinfo.py:132-161 | a release after an acquire of the same record succeeds and gives back the records as they were, every reference count included |
| Cov.CancelStep | bacpypes/service/cov.py:425-441 | corrected to stop the subscription's timer: the timer is cancelled first, on every path, and is returned; a subscription of an object without a detection is a KeyError and one not in its object's list a ValueError, with the detections unchanged; otherwise its first occurrence is removed, and the detection is deleted when no subscription is left |
| Cov.Stopped | bacpypes/service/cov.py:101-102 | cancelling a timer keeps its expiry and marks it cancelled; no timer stays none |
| Cov.Prepare | bacpypes/service/cov.py:495-513 | an object that is not registered is `object`/`unknownObject`; an object with a detection keeps it; a new detection is made only for an object type with COV criteria, else `services`/`covSubscriptionFailed` |
| Cov.TimeRemaining | bacpypes/service/cov.py:167-174 | corrected to read the expiry from the subscription's timer: 0 for a subscription with no lifetime, otherwise the seconds left, made 1 when they are 0 |
| Cov.Find | bacpypes/service/cov.py:43-52 | the position of the first subscription with the given address, process and object, and none exactly when no subscription has all three |
| Cov.FindSubscription | bacpypes/service/cov.py:45-52 | the loop of `find` computes exactly Find |
| Cov.SendCovNotifications | bacpypes/service/cov.py:165-189 | the loop sends exactly Notifications of the subscriptions, one per subscription in order |
| Cov.ChangeOfValueServices.constructor | bacpypes/service/cov.py:410-414 | no object has a detection yet |
| Cov.ChangeOfValueServices.AddSubscription | bacpypes/service/cov.py:420-423 | the subscription goes at the end of its object's list; an object without a detection is a KeyError |
| Cov.ChangeOfValueServices.CancelSubscription | bacpypes/service/cov.py:425-441 | the subscription's timer is stopped and returned; the subscription leaves its object's list, and a list left empty takes its detection with it; KeyError without a detection, ValueError when it is not listed |
| Cov.ChangeOfValueServices.DoSubscribeCovRequest | bacpypes/service/cov.py:484-536 | a subscribe request changes the detections and stops the timer SubscribeStep says |
| CovProperties.SubscribeRefusals | bacpypes/service/cov.py:495-506 | an unknown object is refused with object/unknownObject, and an object without a detection whose type has no criteria with services/covSubscriptionFailed, and neither changes anything or stops a timer |
| CovProperties.MatchCancelRemoves | bacpypes/service/cov.py:516-519 | a cancel that matches stops that subscription's timer, returning it with the same expiry and cancelled, removes that subscription, keeps every other in order, leaves none of that key, and a list left empty takes its detection with it |
| CovProperties.MatchRenewKeeps | bacpypes/service/cov.py:520-522 | a renewal that matches changes only that subscription's timer, stopping the old one: the list keeps its length and every key |
| CovProperties.NoMatchCancel | bacpypes/service/cov.py:524-525 | a cancel without a match leaves every list as it was and stops no timer; the only change is an empty detection for an object that had none |
| CovProperties.NoMatchCreates | bacpypes/service/cov.py:526-532 | a request without a match stops no timer and appends one subscription with the request's parameters at the end of its object's list, found there afterwards; it fails with TypeError exactly when the lifetime is omitted |
| CovProperties.FindAppended | bacpypes/service/cov.py:43-52 | a subscription appended to a list without its key is found at the end |
| CovProperties.SubscribeKeepsValid | bacpypes/service/cov.py:484-536 | every subscribe request keeps lists with their objects, timers with lifetimes and keys unique, so `find` has at most one match |
| CovProperties.CancelKeepsValid | bacpypes/service/cov.py:425-441 | cancelling keeps the detections valid |
| CovProperties.RenewKeepsValid | bacpypes/service/cov.py:98-105 | renewing one subscription keeps its list valid |
| CovProperties.AppendKeepsValid | bacpypes/service/cov.py:35-37 | appending a subscription whose key is new keeps its list valid |
| CovProperties.CancelLastDeletes | bacpypes/service/cov.py:436-441 | removing the last subscription of an object deletes its detection and stops the subscription's timer |
| CovProperties.CancelNeverRemoves | bacpypes/service/cov.py:428 | as written a matching cancel reads `cov.isScheduled`, which a subscription does not have, so it raises AttributeError, the subscription stays and no timer is stopped, while the corrected step stops the matched subscription's timer and removes it |
| CovProperties.SubscribeAsWrittenOtherwise | bacpypes/service/cov.py:484-536 | apart from a matching cancel the code as written is the corrected step |
| CovProperties.NotificationsSpec | bacpypes/service/cov.py:165-189 | each subscription gets one notification to its subscriber and process, about its object, from the local device, confirmed exactly when it asked, with time remaining 0 exactly for an indefinite subscription and at least 1 for one whose timer has not run out |
| CovProperties.NotificationsAsWrittenStop | bacpypes/service/cov.py:171 | as written the first subscription with a lifetime reads `cov.taskTime`, which a subscription does not have, so only the notifications before it are sent, while the corrected loop sends one per subscription |
| CovProperties.NotificationsAsWrittenIndefinite | bacpypes/service/cov.py:165-189 | with no subscription that has a lifetime the loop as written sends the corrected notifications |
| CovProperties.NotificationsCons | bacpypes/service/cov.py:165-189 | the notifications of a list are the first subscription's followed by the rest's |
| Bbmd.Coerce | bacpypes/bvll/bip_bbmd.py:192-198 | an Address is taken as it is; a string goes to `LocalStation`, which refuses it, and anything else is refused, both with TypeError |
| Bbmd.FdAddrs | bacpypes/bvll/bip_bbmd.py:199-200 | the addresses of the FDT entries, in table order |
| Bbmd.PeerAddrs | bacpypes/bvll/bip_bbmd.py:254-255 | the addresses of the BDT peers, in table order |
| Bbmd.ExpireOne | bacpypes/bvll/bip_bbmd.py:233-239 | one pass of the reverse loop counts the entry down and deletes it at zero, extending the expired suffix by one entry |
| Bbmd.BroadcastOctets | bacpypes/bvll/bip_bbmd.py:57 | the directed broadcast address of a peer: its four address octets with every host bit under the mask set, and the same port |
| Bbmd.LongOfSmall | bacpypes/link/address.py:272 | a value below 2^32 packed as four octets reads back as itself |
| Bbmd.Unsigned | bacpypes/link/address.py:272 | `& _long_mask` of a 32-bit value is in 0..2^32-1 |
| Bbmd.HostBitsSet | bacpypes/bvll/bip_bbmd.py:57 | the address or-ed with the inverted mask keeps the network bits of the address and sets every host bit |
| Bbmd.SendToPeers | bacpypes/bvll/bip_bbmd.py:145-153 | the loop over the BDT computes exactly PeerSends |
| Bbmd.PeerSendsStops | bacpypes/bvll/bip_bbmd.py:55-59 | once a peer without `addrIP` has raised, the later peers change nothing |
| Bbmd.SendToForeign | bacpypes/bvll/bip_bbmd.py:155-159 | the loop over the FDT computes exactly ForeignSends |
| Bbmd.BipBbmd.constructor | bacpypes/bvll/bip_bbmd.py:22-29 | a BBMD starts with its address and empty tables |
| Bbmd.BipBbmd.RegisterForeignDevice | bacpypes/bvll/bip_bbmd.py:189-209 | an address is registered or renewed with status 0 and the BDT unchanged; anything else is a TypeError that changes nothing |
| Bbmd.BipBbmd.DeleteForeignDeviceTableEntry | bacpypes/bvll/bip_bbmd.py:211-229 | the status and table of Deleted for an address; a TypeError that changes nothing otherwise |
| Bbmd.BipBbmd.ProcessTask | bacpypes/bvll/bip_bbmd.py:231-239 | the FDT becomes Expire of the old one and the BDT is unchanged |
| Bbmd.BipBbmd.AddPeer | bacpypes/bvll/bip_bbmd.py:241-258 | the BDT becomes PeerAdded of the old one or the error leaves it unchanged; the FDT is unchanged |
| Bbmd.BipBbmd.DeletePeer | bacpypes/bvll/bip_bbmd.py:260-275 | the BDT becomes PeerDeleted of the old one; anything but an address is a TypeError that changes nothing |
| Bbmd.BipBbmd.Indication | bacpypes/bvll/bip_bbmd.py:33-66 | what goes out for a PDU from the network layer is IndicationOut |
| Bbmd.BipBbmd.Confirmation | bacpypes/bvll/bip_bbmd.py:68-187 | what goes out and the new tables for a message from the link are ConfirmationStep |
| BbmdProperties.FdAddrsAppend | bacpypes/bvll/bip_bbmd.py:205 | appending an entry appends its address |
| BbmdProperties.FdAddrsRemove | bacpypes/bvll/bip_bbmd.py:224 | deleting an entry deletes its address at the same position |
| BbmdProperties.PeerAddrsRemove | bacpypes/bvll/bip_bbmd.py:272 | deleting a peer deletes its address at the same position |
| BbmdProperties.RegisterSpec | bacpypes/bvll/bip_bbmd.py:199-209 | after a registration the device has an entry with the new time-to-live and 5 seconds of grace, renewed in place or appended, and no entry for another address changed |
| BbmdProperties.RegisterKeepsUnique | bacpypes/bvll/bip_bbmd.py:199-205 | a registration adds no second entry for an address |
| BbmdProperties.DeleteStatus | bacpypes/bvll/bip_bbmd.py:221-229 | a deletion answers 0 exactly when the address was registered and then removes one entry, and 99 exactly when it was not and then changes nothing |
| BbmdProperties.FdAddrsHas | bacpypes/bvll/bip_bbmd.py:199-200 | every entry's address is among the table's addresses |
| BbmdProperties.PeerAddrsHas | bacpypes/bvll/bip_bbmd.py:254-255 | every peer's address is among the table's addresses |
| BbmdProperties.DeleteSpec | bacpypes/bvll/bip_bbmd.py:221-225 | in a table without repeated addresses a deletion removes the device's entry and keeps every other entry |
| BbmdProperties.RegisterThenDelete | bacpypes/bvll/bip_bbmd.py:189-229 | registering a new device and then deleting it answers 0 and gives the table back |
| BbmdProperties.ExpireShrinks | bacpypes/bvll/bip_bbmd.py:231-239 | after one second every entry left has a second or more to go and is an old entry with one second less |
| BbmdProperties.ExpireKeeps | bacpypes/bvll/bip_bbmd.py:231-239 | every entry that had more than one second left is still there with one second less |
| BbmdProperties.ExpireKeepsUnique | bacpypes/bvll/bip_bbmd.py:231-239 | expiry adds no address and keeps the FDT free of repeated addresses |
| BbmdProperties.PeerAddedSpec | bacpypes/bvll/bip_bbmd.py:250-258 | adding a peer fails with RuntimeError exactly when it is this BBMD and the table is not empty; otherwise the peer is in the table, appended exactly when it was new |
| BbmdProperties.PeerAddedKeepsValid | bacpypes/bvll/bip_bbmd.py:250-258 | adding a peer keeps the BDT free of repeated addresses and this BBMD only at its head |
| BbmdProperties.PeerDeletedSpec | bacpypes/bvll/bip_bbmd.py:269-275 | in a table without repeated addresses deleting a peer removes it and keeps every other peer |
| BbmdProperties.PeerDeletedKeepsValid | bacpypes/bvll/bip_bbmd.py:269-275 | deleting a peer keeps the tables valid |
| BbmdProperties.AddThenDeletePeer | bacpypes/bvll/bip_bbmd.py:241-275 | adding a new peer and then deleting it gives the table back |
| BbmdProperties.DirectedBroadcastDefined | bacpypes/bvll/bip_bbmd.py:57 | a peer whose octets have the B/IP form (six octets with a port) has a directed broadcast address, its host bits set by the entry's mask; any other raises AttributeError, standing for the missing `addrIP` (see Left out for where this differs) |
| BbmdProperties.ForeignSendsSpec | bacpypes/bvll/bip_bbmd.py:155-159 | the FDT loop sends one forwarded copy to every foreign device except the excluded one, and nothing else |
| BbmdProperties.ReachableLast | bacpypes/bvll/bip_bbmd.py:55-59 | every peer but this BBMD is a B/IP station exactly when that holds for all but the last peer and for the last |
| BbmdProperties.PeerSendsCompletes | bacpypes/bvll/bip_bbmd.py:145-153 | the BDT loop completes exactly when every other peer is a B/IP station, and otherwise fails with AttributeError |
| BbmdProperties.PeerSendsCovers | bacpypes/bvll/bip_bbmd.py:145-153 | when it completes the BDT loop sends a copy to the directed broadcast address of every peer but this BBMD |
| BbmdProperties.PeerSendsSelf | bacpypes/bvll/bip_bbmd.py:146-149 | when distributing, this BBMD's own BDT entry gets a local broadcast |
| BbmdProperties.PeerSendsOnly | bacpypes/bvll/bip_bbmd.py:145-153 | the BDT loop sends only forwarded copies, to stations or, for this BBMD's own entry when distributing, as a local broadcast |
| BbmdProperties.PeerSendsTargets | bacpypes/bvll/bip_bbmd.py:145-153 | every station the BDT loop sends to is the directed broadcast address of a peer other than this BBMD |
| BbmdProperties.LocalBroadcastOnly | bacpypes/bvll/bip_bbmd.py:44-64 | a local broadcast from the network layer goes out first as an original broadcast, then only as forwarded copies to stations or foreign devices; it fails exactly when a peer other than this BBMD is not a B/IP station |
| BbmdProperties.ForwardedOnly | bacpypes/bvll/bip_bbmd.py:52-64 | the forwarded copies of a local broadcast go only to stations or foreign devices |
| BbmdProperties.LocalBroadcastCovers | bacpypes/bvll/bip_bbmd.py:44-64 | with every other peer reachable, a local broadcast reaches the directed broadcast address of every peer but this BBMD and every foreign device |
| BbmdProperties.DistributeOut | bacpypes/bvll/bip_bbmd.py:135-159 | Distribute-Broadcast-To-Network goes up as a local broadcast, then to the peers, then to the foreign devices but the sender, and the tables are unchanged |
| BbmdProperties.DistributeCovers | bacpypes/bvll/bip_bbmd.py:135-159 | a distributed broadcast goes to the network layer, to this BBMD's own subnet when it is in the BDT, to every other peer's directed broadcast address and to every foreign device but the sender |
| BbmdProperties.DistributeNoEcho | bacpypes/bvll/bip_bbmd.py:155-159 | the foreign device that asked for the broadcast gets no copy back unless it is itself a peer's directed broadcast address |
| BbmdProperties.ExpireKeepsValid | bacpypes/bvll/bip_bbmd.py:231-239 | expiry keeps the tables valid |
| BbmdProperties.ConfirmationKeepsValid | bacpypes/bvll/bip_bbmd.py:68-187 | every message handled keeps the tables valid and leaves the BDT as it was |
| NetworkSap.Unclaimed | bacpypes/network/network_sap.py:54-65 | taking a network away from another router fails only with ValueError, and keeps every reference resolving and the adapters as they were |
| NetworkSap.Attached | bacpypes/network/network_sap.py:66-80 | adding the network to the router's list keeps every reference resolving and the adapters as they were |
| NetworkSap.AddNet | bacpypes/network/network_sap.py:53-80 | one network of the loop fails only with ValueError, and keeps every reference resolving and the adapters as they were |
| NetworkSap.AddRefs | bacpypes/network/network_sap.py:48-80 | the whole loop keeps every reference resolving and the adapters as they were |
| NetworkSap.ToAll | bacpypes/network/network_sap.py:176-179 | one NPDU per adapter, the i-th to adapter i, all alike |
| NetworkSap.SourceRouting | bacpypes/network/network_sap.py:188-225 | the source routing keeps every reference resolving and the adapters as they were |
| NetworkSap.DestinationRouting | bacpypes/network/network_sap.py:226-256 | only an NPDU with a destination route is forwarded |
| NetworkSap.CheckSpoofed | bacpypes/network/network_sap.py:190-196 | the loop answers whether another adapter is on the network of the source route |
| NetworkSap.FindAdapter | bacpypes/network/network_sap.py:339-350 | the loop finds the first adapter on the network, or -1 |
| NetworkSap.SendToAll | bacpypes/network/network_sap.py:176-179 | the loop sends exactly ToAll |
| NetworkSap.SendToOthers | bacpypes/network/network_sap.py:329-334 | the loop sends exactly ToOthers |
| NetworkSap.SendWhoIs | bacpypes/network/network_sap.py:361-371 | the loop sends exactly WhoIsOthers |
| NetworkSap.ApduAddresses | bacpypes/network/network_sap.py:263-288 | an APDU that a router receives on an adapter other than its local one seems to come from the source route, or from a remote station on that adapter's network, and to go to a global broadcast, a local broadcast for a remote broadcast, or the local address; otherwise it comes from the source route or the sender and goes to a global broadcast or the destination |
| NetworkSap.Deliver | bacpypes/network/network_sap.py:257-309 | an APDU to be processed locally goes up when there is an upper layer, with ApduAddresses' addresses; a network message to be processed locally goes to the service element when its type has a class, and an unknown type stops the NPDU, forwarding included; whether forwarding goes on is otherwise the routing decision |
| NetworkSap.Forwarding | bacpypes/network/network_sap.py:311-373 | the forwarding part with its loops gives exactly ForwardActions |
| NetworkSap.NetworkServiceAccessPoint.constructor | bacpypes/network/network_sap.py:24-32 | no adapters, no routers, no networks, no local adapter or address |
| NetworkSap.NetworkServiceAccessPoint.Bind | bacpypes/network/network_sap.py:34-46 | the outcome and state of BindStep |
| NetworkSap.NetworkServiceAccessPoint.AddNetRef | bacpypes/network/network_sap.py:53-80 | the state of AddNet, or ValueError with nothing changed |
| NetworkSap.NetworkServiceAccessPoint.AddRouterReferences | bacpypes/network/network_sap.py:48-80 | the outcome and state of AddRefs |
| NetworkSap.NetworkServiceAccessPoint.RemoveRouterReferences | bacpypes/network/network_sap.py:82-113 | the state of Removed |
| NetworkSap.NetworkServiceAccessPoint.Indication | bacpypes/network/network_sap.py:115-179 | what goes out is IndicationOut |
| NetworkSap.NetworkServiceAccessPoint.ProcessNpdu | bacpypes/network/network_sap.py:181-373 | the outcome, state and actions of ProcessStep |
| NetworkSap.AddRefsStops | bacpypes/network/network_sap.py:53-80 | once a network has failed, the later ones change nothing |
| NetworkSapProperties.InitialValid | bacpypes/network/network_sap.py:28-32 | a new service access point has a valid routing table |
| NetworkSapProperties.BindKeepsValid | bacpypes/network/network_sap.py:34-46 | binding keeps the table valid and fails exactly when a second adapter has no network |
| NetworkSapProperties.UnclaimedSpec | bacpypes/network/network_sap.py:54-65 | on a valid table the first stage never fails; afterwards the network refers to no router but this one, no other network changed, and the router that claimed it no longer lists it |
| NetworkSapProperties.AttachedSpec | bacpypes/network/network_sap.py:66-80 | the second stage makes the network refer to the router, which lists it, and changes no other network |
| NetworkSapProperties.AddNetSpec | bacpypes/network/network_sap.py:53-80 | on a valid table adding a network never fails, keeps the table valid, makes the network refer to the router, which lists it, and changes no other network |
| NetworkSapProperties.AddNetReclaims | bacpypes/network/network_sap.py:56-65 | a network claimed by another router leaves that router's list |
| NetworkSapProperties.AddRefsSpec | bacpypes/network/network_sap.py:48-80 | `add_router_references` never fails on a valid table, keeps it valid, and every listed network then refers to the router, which lists it |
| NetworkSapProperties.GoneNetworks | bacpypes/network/network_sap.py:88-99 | the networks collected for deletion are exactly those referring to a matching router |
| NetworkSapProperties.RemovedSpec | bacpypes/network/network_sap.py:82-113 | `remove_router_references` deletes exactly the matching routers and the networks referring to them, keeps every other entry as it was, and keeps the table valid |
| NetworkSapProperties.IndicationHopCount | bacpypes/network/network_sap.py:133-134 | every NPDU from the application layer goes out with hop count 255 |
| NetworkSapProperties.IndicationRefused | bacpypes/network/network_sap.py:152-160 | a remote destination on the default adapter's own network, or an address of another type, is a RuntimeError, and no other RuntimeError is raised |
| NetworkSapProperties.IndicationRemote | bacpypes/network/network_sap.py:161-179 | a remote destination elsewhere goes to the router known for its network or, with none known, as a local broadcast through every adapter, always carrying the destination and hop count 255 |
| NetworkSapProperties.ToOthersSpec | bacpypes/network/network_sap.py:329-334 | a global broadcast is forwarded exactly once to every adapter but the one it came in on |
| NetworkSapProperties.WhoIsOthersSpec | bacpypes/network/network_sap.py:361-371 | a Who-Is-Router-To-Network goes exactly once to every adapter but the one the NPDU came in on |
| NetworkSapProperties.ForwardSpec | bacpypes/network/network_sap.py:311-373 | a device with one adapter or an NPDU with hop count 0 forwards nothing; every forwarded copy has one hop less and keeps its source route, and every search goes to another adapter for the destination network |
| NetworkSapProperties.SpoofDropped | bacpypes/network/network_sap.py:190-196 | a source route naming another adapter's network is dropped with nothing learned and nothing done |
| NetworkSapProperties.ProcessState | bacpypes/network/network_sap.py:181-225 | only the source routing changes the table |
| NetworkSapProperties.ProcessKeepsValid | bacpypes/network/network_sap.py:188-225 | `process_npdu` keeps the table valid, its source routing never fails, and a source route that is not dropped is learned as reached through the router that sent it |
| NetworkSapProperties.ProcessForwarding | bacpypes/network/network_sap.py:311-322 | every forwarded copy has one hop less, and with one adapter or hop count 0 only the layers above are given anything |
| Iocb.Initial | bacpypes/comm/iocb.py:94-103 | a new IOCB is idle, with no response, no error, no callbacks and its event not set |
| Iocb.IdentCounter.constructor | bacpypes/comm/iocb.py:81-86 | identities start at 1 |
| Iocb.IOCB.constructor | bacpypes/comm/iocb.py:80-110 | the IOCB takes the next identity and advances the counter, has priority `_priority` or 0, is in the initial state and is bound to no controller |
| Iocb.IOCB.AddCallback | bacpypes/comm/iocb.py:112-130 | the state and the callbacks called are AddCallbackStep |
| Iocb.CompleteStep | bacpypes/comm/iocb.py:168-172 | an IOCB without a controller is completed with the response in whatever state it is, and its callbacks run |
| Iocb.AbortStep | bacpypes/comm/iocb.py:183-187 | an IOCB without a controller is aborted with the error, and its callbacks run, only when it is neither completed nor aborted; otherwise nothing changes |
| Iocb.IOCB.Trigger | bacpypes/comm/iocb.py:140-157 | the state and the callbacks called are Triggered |
| Iocb.IOCB.Complete | bacpypes/comm/iocb.py:159-172 | corrected to the controller's attribute names (see Findings): without a controller the IOCB completes itself; with one, the controller's `complete_io` decides |
| Iocb.IOCB.Abort | bacpypes/comm/iocb.py:174-187 | corrected to the controller's attribute names (see Findings): without a controller the IOCB aborts itself; with one, the controller's `abort_io` decides |
| Iocb.IOController.constructor | bacpypes/comm/io_controller.py:12-16 | the controller keeps its name |
| Iocb.IOController.RequestIo | bacpypes/comm/io_controller.py:22-37 | anything but an IOCB is a TypeError with nothing called; an IOCB is bound to the controller and goes on as RequestIoStep says |
| Iocb.IOController.ActiveIo | bacpypes/comm/io_controller.py:43-50 | the IOCB becomes ActiveIoStep of its old state, or the error leaves it unchanged |
| Iocb.IOController.CompleteIo | bacpypes/comm/io_controller.py:52-66 | the state and the callbacks called are CompleteIoStep |
| Iocb.IOController.AbortIo | bacpypes/comm/io_controller.py:68-82 | the state and the callbacks called are AbortIoStep |
| IocbProperties.InitialValid | bacpypes/comm/iocb.py:94-103 | a new IOCB is valid: in one of the five states, and triggered once finished |
| IocbProperties.StepsKeepValid | bacpypes/comm/io_controller.py:22-82 | every operation of the IOCB and of its controller keeps it valid |
| IocbProperties.TriggeredSpec | bacpypes/comm/iocb.py:140-157 | triggering sets the completion event, calls every callback once in the order they were added, and changes nothing else |
| IocbProperties.AddCallbackSpec | bacpypes/comm/iocb.py:112-130 | the callback is kept; on a triggered IOCB only it is called at once, otherwise nothing is called until the trigger calls it after the earlier ones |
| IocbProperties.CompleteSpec | bacpypes/comm/iocb.py:166-172 | without a controller `complete` stores the response, completes and calls every callback |
| IocbProperties.AbortSpec | bacpypes/comm/iocb.py:183-187 | without a controller `abort` stores the error, aborts and calls every callback exactly while the IOCB is not yet completed or aborted, and otherwise does nothing |
| IocbProperties.ControllerFinishes | bacpypes/comm/io_controller.py:52-82 | `complete_io` and `abort_io` leave a completed or aborted IOCB alone, and otherwise finish it with the response or the error and call every callback |
| IocbProperties.ControllerFinalState | bacpypes/comm/io_controller.py:52-82 | once finished through its controller an IOCB stays as it is and calls no callback again |
| IocbProperties.ActiveIoSpec | bacpypes/comm/io_controller.py:43-50 | `active_io` succeeds exactly on an idle or pending IOCB and makes it active; otherwise it is a RuntimeError |
| IocbProperties.RequestIoSpec | bacpypes/comm/io_controller.py:28-37 | `request_io` leaves the IOCB pending, or aborted with the error `process_io` raised and every callback called |
| IocbProperties.PrecedesOrder | bacpypes/comm/iocb.py:205-212 | `__lt__` is irreflexive, asymmetric and transitive, total on distinct identities, and puts a lower priority first |
| IocbProperties.ActiveIoAsWrittenFails | bacpypes/comm/io_controller.py:47 | as written, `active_io` on a new IOCB raises AttributeError, where the idle IOCB should become active |
| IocbProperties.CompletedIocbAbortsAgainAsWritten | bacpypes/comm/io_controller.py:29-66 | as written, an IOCB completed by its controller is still idle to itself and bound to no controller, so a later `abort` calls its callbacks a second time |
| IocbProperties.AddCallbackAsWrittenRepeats | bacpypes/comm/iocb.py:127-130 | as written, a callback added to a triggered IOCB calls every earlier callback again; the corrected step calls only the new one |
| TcpServerMux.Choose | bacpypes/bsll/tcp_server_mux.py:97-118 | a Service-Request's service identifier picks the device-to-device, router-to-router, proxy or LANE service when it is configured, else the NO_..._SERVICE code for it; an unknown identifier is UNRECOGNIZED_SERVICE |
| TcpServerMux.ServiceAdapter.constructor | bacpypes/bsll/service_adapter.py:14-18 | a service adapter starts with no connections, and with its identifier, whether it asks for authentication and its users |
| TcpServerMux.ServiceAdapter.AddConnection | bacpypes/bsll/service_adapter.py:47-52 | the connection is held by the service, and knows it is connected to it |
| TcpServerMux.ServiceAdapter.RemoveConnection | bacpypes/bsll/service_adapter.py:54-61 | the connection is no longer held, and has no service and is not connected |
| TcpServerMux.ConnectionState.constructor | bacpypes/bsll/connection_state.py:18-28 | a new connection has its address, no service, is not connected or authenticated, and has no challenge and no user |
| TcpServerMux.TCPServerMultiplexer.constructor | bacpypes/bsll/tcp_server_mux.py:47-54 | a new multiplexer has no connections and offers no service |
| TcpServerMux.TCPServerMultiplexer.Offer | bacpypes/bsll/service_adapter.py:19-29 | an adapter with one of the four service identifiers becomes the multiplexer's service of that kind; any other identifier is a RuntimeError that changes nothing |
| TcpServerMux.TCPServerMultiplexer.ServiceRequest | bacpypes/bsll/tcp_server_mux.py:91-147 | the outcome, the answer, the connection and the membership of every service are those of ServiceRequestStep |
| TcpServerMux.TCPServerMultiplexer.AccessRequest | bacpypes/bsll/tcp_server_mux.py:195-234 | the answer and the connection are those of AccessRequestStep |
| TcpServerMux.TCPServerMultiplexer.AccessResponse | bacpypes/bsll/tcp_server_mux.py:236-281 | the outcome, the answer, the connection and the membership of its service are those of AccessResponseStep |
| TcpServerMux.TCPServerMultiplexer.Confirmation | bacpypes/bsll/tcp_server_mux.py:71-193 | a packet that is no BSLPDU raises with nothing sent; one from an address without a connection is dropped; one whose body does not decode raises; any other goes on as ConfirmationStep says; the connections and services offered are unchanged |
| TcpServerMux.TCPServerMultiplexer.Dispatch | bacpypes/bsll/tcp_server_mux.py:88-193 | the outcome, the answer and the connection for a decoded message are those of ConfirmationStep |
| TcpServerMuxProperties.NewConnectionValid | bacpypes/bsll/connection_state.py:18-28 | a new connection is valid |
| TcpServerMuxProperties.ServiceRequestRefused | bacpypes/bsll/tcp_server_mux.py:92-124 | an unknown identifier gets UNRECOGNIZED_SERVICE and a service not offered gets its NO_* code; either way the connection only leaves its old service and joins none |
| TcpServerMuxProperties.ServiceRequestLeaves | bacpypes/bsll/tcp_server_mux.py:92-94 | a Service-Request first takes a connected connection from its service, and only that one |
| TcpServerMuxProperties.ServiceRequestOpen | bacpypes/bsll/tcp_server_mux.py:126-127 | a service needing no authentication takes the connection at once, answers SUCCESS and leaves its authentication as it was |
| TcpServerMuxProperties.ServiceRequestNeedsAuthentication | bacpypes/bsll/tcp_server_mux.py:128-138 | an unauthenticated connection with no trusted default user is answered AUTHENTICATION_REQUIRED, joins nothing, and remembers the service for later |
| TcpServerMuxProperties.ServiceRequestTrusted | bacpypes/bsll/tcp_server_mux.py:129-147 | a trusted address is authenticated with its default user, and joins the service, answered SUCCESS, exactly when that user may use it, else AUTHENTICATION_NO_SERVICE |
| TcpServerMuxProperties.AccessRequestAsWrittenRaises | bacpypes/bsll/tcp_server_mux.py:195-234 | as written, every Access-Request raises TypeError and sends nothing: a refusal because its `Result` reply is None (bacpypes/bsll/registry.py:17-18), a known user at the digest of a `str`, after `conn.userinfo` is stored; no challenge is recorded, and otherwise the connection is as the corrected step leaves it |
| TcpServerMux.ReplyAsWritten | bacpypes/bsll/tcp_server_mux.py:198-222 | as written, sending a `Result` reply raises the error of constructing it through the name the decorator bound to None, and sends nothing |
| TcpServerMuxProperties.AccessRequestSpec | bacpypes/bsll/tcp_server_mux.py:195-234 | corrected to hash octets: an Access-Request without a service, after authentication was tried, or with an unknown hash function gets its error and changes nothing; a known user is challenged; an unknown user is answered AUTHENTICATION_FAILURE |
| TcpServerMuxProperties.AccessResponseSpec | bacpypes/bsll/tcp_server_mux.py:236-281 | an Access-Response outside a challenge or with an unknown hash changes nothing; the right digest authenticates the connection, which joins its service if its user may use it; a wrong one answers AUTHENTICATION_FAILURE |
| TcpServerMuxProperties.JoinsOnlyWhenAllowed | bacpypes/bsll/tcp_server_mux.py:126-144 | a connection joins a service only when it needs no authentication or the connection is authenticated with a user who may use it |
| TcpServerMuxProperties.RelaysOnlyToOwnService | bacpypes/bsll/tcp_server_mux.py:148-185 | a data message reaches only the service the connection is connected to, unchanged, and changes nothing |
| TcpServerMuxProperties.ConfirmationKeepsValid | bacpypes/bsll/tcp_server_mux.py:88-281 | every message keeps a connection valid; with the corrected Access-Request the only error left is a TypeError from a user without a password answering a challenge |
| App.InitialFields | bacpypes/app/app.py:30-40 | the registry starts indexed; a local device is filed under its name and identifier, and without one both dictionaries are empty |
| App.Application.constructor | bacpypes/app/app.py:28-40 | a new application holds InitialFields of its local device |
| App.Application.AddObject | bacpypes/app/app.py:56-81 | the outcome and the registry are those of AddObjectStep |
| App.Application.DeleteObject | bacpypes/app/app.py:83-97 | the outcome and the registry are those of DeleteObjectStep |
| App.Application.GetObjectId | bacpypes/app/app.py:99-101 | the object filed under the identifier, found exactly when it is filed |
| App.Application.GetObjectName | bacpypes/app/app.py:103-105 | the object filed under the name, found exactly when it is filed |
| AppProperties.AddObjectSpec | bacpypes/app/app.py:56-81 | `add_object` accepts exactly a named, identified object with instance below 4194303 whose name and identifier are both free; a refusal is a RuntimeError that changes nothing; an accepted object is filed under both keys, nothing filed before is changed, and its identifier is appended to a non-empty object list |
| AppProperties.AddKeepsIndexed | bacpypes/app/app.py:74-79 | adding keeps every object filed under its own name and identifier |
| AppProperties.DeleteRegistered | bacpypes/app/app.py:83-97 | deleting a registered object removes exactly its two entries, keeps the registry indexed, and takes the first occurrence of its identifier out of a non-empty object list, with ValueError when it is not listed |
| AppProperties.AddThenDelete | bacpypes/app/app.py:56-97 | adding an object and deleting it gives back both dictionaries and an object list with the same identifiers |
| AppProperties.RemoveAppended | bacpypes/app/app.py:94-95 | the first occurrence of an appended identifier is found, and removing it leaves the list's elements |
| AppProperties.AddThenGet | bacpypes/app/app.py:74-105 | an added object is found again by its identifier and by its name |
| AppProperties.AddWithoutDevice | bacpypes/app/app.py:78 | as written, an application made without a local device files a valid new object and then raises AttributeError; the corrected step accepts it |
| AppProperties.DeleteWithoutDevice | bacpypes/app/app.py:93 | as written, deleting an object of an application without a local device removes both entries and then raises AttributeError; the corrected step succeeds |
| AppProperties.WithDeviceAsWritten | bacpypes/app/app.py:56-97 | with a local device the corrected steps are the code as written |
| App.Indication | bacpypes/app/app.py:142-168 | only a rejection (RejectException or one of its subclasses) or an abort escapes `indication`, and an unconfirmed request is never answered |
| AppProperties.IndicationSpec | bacpypes/app/app.py:142-168 | `indication` raises exactly for a confirmed request without a helper, as UnrecognizedService, and for a helper's rejection (RejectException, MissingRequiredParameter, ParameterOutOfRange, InconsistentParameters, UnrecognizedService) or abort, raising it again; it answers only confirmed requests, and only when the helper raised something else, with the execution error's class and code or `device`/`operationalProblem` |
| Device.WhoIsLimits | bacpypes/service/device.py:159-173 | a low limit without a high limit, and a high limit without a low one, is MissingRequiredParameter; a limit below 0 or above 4194303 is ParameterOutOfRange; the low limit is checked first |
| Device.SetStep | bacpypes/service/device.py:402-418 | corrected to cancel the timer handle: the communication control value is set and the scheduled re-enable, if any, is cancelled and forgotten |
| Device.SetStepAsWritten | bacpypes/service/device.py:402-418 | as written, the value is set and, when a re-enable is scheduled, `suspend_task` on the handle raises AttributeError and the handle stays |
| Device.DccStepAsWritten | bacpypes/service/device.py:385-400 | as written, a wrong password raises `security`/`passwordFailure` and changes nothing; otherwise the value is set through the as-written enable or disable, whose error ends the request, and a timed disable schedules a re-enable after 60 times the minutes |
| Device.ReadCurrent | bacpypes/service/device.py:32-40 | reading `localDate` or `localTime` gives the clock's value, and with an array index raises TypeError |
| Device.WriteCurrent | bacpypes/service/device.py:42-43 | writing `localDate` or `localTime` is always refused with `property`/`writeAccessDenied` |
| Device.FillDefaults | bacpypes/service/device.py:91-94 | the loop adds every default whose key was not given, and keeps the caller's values |
| Device.SplitPrivate | bacpypes/service/device.py:96-99 | the loop files every keyword starting with `_` as an attribute and every other as a property |
| Device.NewLocalDevice | bacpypes/service/device.py:88-133 | the construction with its two loops gives exactly Initialized |
| Device.DeviceCommunicationControlServices.constructor | bacpypes/service/device.py:379-383 | no re-enable is scheduled |
| Device.DeviceCommunicationControlServices.EnableCommunications | bacpypes/service/device.py:402-409 | the access point is enabled, and any scheduled re-enable is cancelled and dropped |
| Device.DeviceCommunicationControlServices.DisableCommunications | bacpypes/service/device.py:411-418 | the access point takes the value, and any scheduled re-enable is cancelled and dropped |
| Device.DeviceCommunicationControlServices.DoDeviceCommunicationControlRequest | bacpypes/service/device.py:385-400 | the outcome and the state are DccStep, and the access point takes the value the step chose |
| DeviceProperties.InitializedShape | bacpypes/service/device.py:101-133 | a completed construction has an object identifier and a maximum APDU length of 50 or more, its object list is set, and its class is registered only when it was not |
| DeviceProperties.InitializedProperties | bacpypes/service/device.py:91-123 | the defaults not given are present, the caller's values win, no `_` keyword is a property, and the object list holds exactly the object identifier |
| DeviceProperties.InitializedAttributes | bacpypes/service/device.py:96-105 | the attributes are exactly the caller's `_` keywords, and the class is registered with the caller's vendor identifier exactly when it was not registered |
| DeviceProperties.InitializedRefusals | bacpypes/service/device.py:101-127 | `localDate`, `localTime` or `objectList` given, or no object identifier, or no vendor identifier for an unregistered class, raise RuntimeError; once those pass, ValueError exactly for a maximum APDU length below 50 |
| DeviceProperties.InitializedAsWrittenSpec | bacpypes/service/device.py:96-99 | as written, any `_` keyword makes construction raise RuntimeError for the dictionary changed while it is iterated; without one the code agrees with the intended construction |
| DeviceProperties.DefaultsPublic | bacpypes/service/device.py:79-86 | no default property starts with `_` |
| DeviceProperties.InitializedAccepts | bacpypes/service/device.py:101-133 | when the checks pass, construction succeeds and its attributes are the caller's `_` keywords |
| DeviceProperties.PasswordDeviceAsWritten | bacpypes/service/device.py:96-99 | a device given a DCC password cannot be built as written, while the intended construction keeps the password as an attribute |
| DeviceProperties.WhoIsSpec | bacpypes/service/device.py:146-184 | `who_is` sends exactly when both limits or neither are given and those given are device instances; one without the other is a missing parameter, and one out of range is out of range; the request goes to the address or to everyone |
| DeviceProperties.DoWhoIsRequestSpec | bacpypes/service/device.py:186-246 | corrected: without a local device nothing is done; otherwise the limits' error is raised, or an I-Am with the device's four parameters goes to the requester exactly when the instance is within the limits |
| DeviceProperties.WhoIsAnswered | bacpypes/service/device.py:146-220 | a Who-Is that `who_is` sends passes the receiver's checks and is answered exactly when the receiver's instance is in the range |
| DeviceProperties.DoIAmRequestSpec | bacpypes/service/device.py:247-268 | an I-Am is accepted exactly when its four parameters are present, else MissingRequiredParameter |
| DeviceProperties.WhoHasLimitsSpec | bacpypes/service/device.py:301-311 | limits on a Who-Has pass exactly when both are given and each is a device instance |
| DeviceProperties.DoWhoHasRequestSpec | bacpypes/service/device.py:288-357 | corrected: without a local device nothing is done; otherwise a device answers a Who-Has exactly when the limits pass and hold its instance, the request names the object by identifier or name, and the object is registered under it; naming neither is InconsistentParameters |
| DeviceProperties.NoDeviceAsWritten | bacpypes/service/device.py:186-341 | as written, an application without a local device raises AttributeError at the guard of `do_WhoIsRequest`, `i_am`, `do_WhoHasRequest` and `i_have`, where the corrected operations do nothing; with a device the two agree |
| DeviceProperties.LimitErrorsRejected | bacpypes/app/app.py:152-155 | a Who-Is or Who-Has whose limits fail raises MissingRequiredParameter or ParameterOutOfRange, which `indication` raises again as a rejection, for a confirmed or an unconfirmed request |
| DeviceProperties.WhoHasFindsAskedObject | bacpypes/service/device.py:313-333 | in an indexed registry the I-Have names the very object asked for |
| DeviceProperties.DoIHaveRequestSpec | bacpypes/service/device.py:358-373 | an I-Have is accepted exactly when its three parameters are present, else MissingRequiredParameter |
| DeviceProperties.DccStepSpec | bacpypes/service/device.py:385-400 | a request with the wrong password, when the device has one, raises `security`/`passwordFailure` and changes nothing; otherwise the value is set, the old re-enable cancelled, and a new one scheduled after 60 times the minutes exactly for a timed disable |
| DeviceProperties.DccEnable | bacpypes/service/device.py:390-391 | an accepted enable request leaves communication enabled with nothing scheduled |
| DeviceProperties.TimedDisableExpires | bacpypes/service/device.py:393-409 | a timed disable is undone when its task fires: communication is enabled and nothing is left scheduled |
| DeviceProperties.TimedDisableAsWritten | bacpypes/service/device.py:397-408 | as written, the re-enable of a timed disable raises AttributeError on the handle it cannot suspend, the handle stays, and every later request raises too |
| DeviceProperties.DccAsWrittenAgrees | bacpypes/service/device.py:385-418 | where nothing is scheduled, the as-written request agrees with the intended one |

## Left out

- Sockets, UDP and TCP transports, and asyncio event loops: the model receives and returns PDUs as values, and a send is an event in a step function's output list.
- Timers (`call_later`, `set_timeout`, recurring tasks): starting or cancelling a timer is an output event, and a timer firing is a separate operation; the clock is a `now` parameter.
- hashlib and random challenges in the BSLL server multiplexer: the hash function and the challenge octets are parameters (`HashFn`, `challenge`). The corrected Access-Request hashes octets; as written it passes a `str` to the digest (see Findings).
- ServiceRequestStep (TcpServerMux.ServiceRequestStep), AccessRequestStep, AccessResponseStep and ConfirmationStep, and the methods built on them (TcpServerMux.TCPServerMultiplexer.ServiceRequest, AccessRequest, AccessResponse, Confirmation and Dispatch), send their `Result` and `AccessChallenge` replies with the corrected decorator of bacpypes/bsll/registry.py:17-18. As written each of these replies raises TypeError (Bslpdu.ResultResponseAsWritten, TcpServerMux.ReplyAsWritten): the `Result` calls at bacpypes/bsll/tcp_server_mux.py:121, :145, :253 and :279 and the replies at :198, :205, :214 and :222. The state changes made before such a reply stay made in the source: the removal from the old service at :94, the additions to the new service at :127 and :144, the default `userinfo` and `accessState` at :131-133, the saved service at :138, `userinfo` at :219 and `accessState` at :263. TcpServerMuxProperties.AccessRequestAsWrittenRaises states this for the Access-Request.
- ConfirmationKeepsValid (TcpServerMuxProperties.ConfirmationKeepsValid) is stated for the corrected Access-Request; as written every Access-Request from a known user raises TypeError at bacpypes/bsll/tcp_server_mux.py:227, which TcpServerMuxProperties.AccessRequestAsWrittenRaises shows.
- Interface forms of `Address` that consult netifaces (bacpypes/link/address.py:218-255): they depend on the host's interfaces.
- Octal, hex and short inet_aton forms of IPv4 text: only dotted-quad decimal text is parsed, so "10.0.0.010" is read as 10.0.0.10 where inet_aton reads the last part as octal 010, that is 10.0.0.8.
- DecodeString (Addresses.DecodeString) and the Text predicates IsDigit, IsDigits and AllDigits take ASCII digits and an exact end of text. Python's `\d` also takes other Unicode decimal digits, which `int()` accepts, and `$` also matches before one final "\n". So the source accepts "12\n" (local station 12), "1.2.3.4\n" (an IP station) and "12:34\n" (remote station 34 on network 12), and the model refuses them, as it refuses digits outside ASCII. `str` never prints such text, so the round trips do not depend on it.
- DigitEnd (Addresses.DigitEnd): the run of a `\d+` group stops at the first character that is not an ASCII digit, where Python's run also takes other Unicode decimal digits.
- MatchIpParts (Addresses.MatchIpParts): the match refuses a final "\n" after the port or mask, which the `$` of `ip_address_mask_port_re` accepts.
- DecodeStringSkips (Addresses.DecodeStringSkips): a run of digits followed by one final "\n" goes on to the `N:` forms and is refused, where the source takes it as a local station.
- The `addrMask`, `addrIP` and `addrTuple` attributes of IP addresses: the model keeps only the octets of an address. The "/n" mask suffix of an IP text (bacpypes/link/address.py:118-145) is parsed and then dropped; a BDT entry keeps its own mask. `IpForm` of six octets with a port stands in for `addrIP`.
- DirectedBroadcastDefined (BbmdProperties.DirectedBroadcastDefined) and Bbmd.DirectedBroadcast decide from the octets whether a peer has `addrIP`, where the source decides from how the address was made. A `LocalStation` of six octets (bacpypes/link/station.py:12-24) has no `addrIP`, so the source raises AttributeError where the model computes a broadcast address; a remote station written "2:1.2.3.4" (bacpypes/link/address.py:118-145) has `addrIP`, so the source computes where the model raises. The peer members built on it (BbmdProperties.PeerSends, BbmdProperties.PeerSendsCompletes, BbmdProperties.ReachableLast, BbmdProperties.LocalBroadcastCovers) read the peer's address the same way.
- NPCI.update's copy of the user-data attributes between messages: only the header fields are copied in the model.
- The network service access point's `sap_indication` and `sap_confirmation`, which encode a network message to an adapter: the model stops at the encoded NPDU.
- NPDU and APDU decoding inside the network layer is abstracted to the address fields it reads (`InNpdu`); the server peer end is the `hasUpper` parameter.
- The router-status field of a routing table entry is always 0, as bacpypes never changes it.
- The TCP server multiplexer's `request` and `indication` encoding path and the transport and bindings set up in its constructor: the model covers the service requests and results it decides.
- The service adapters' default user lists and authentication settings are constructor parameters.
- bacpypes/bsll/constants.py is not part of this model; its values are those in bacpypes/bsll.py:26-52.
- The transport's StreamToPacket loop that calls the framer repeatedly (bacpypes/transport/stream_to_packet.py): only one framing step is modelled, so the lack of progress on a length field of 0 is shown for one step (Packetize.ShortLengthMakesNoProgress) and not as a loop.
- The type check in `Application.request`, `get_services_supported` (it inspects the class) and `iter_objects`: they are reflection over Python objects.
- APDU service sequences and primitive data types: confirmed and unconfirmed requests carry their service octets; the object identifier limit is the constant 4194303.
- bacpypes/app/detect.py is not part of this model; a detected change of value is taken as a boolean.
- The float change-of-value increment criteria: COV detection is a boolean input.
- Change-of-value ack, error, reject and abort callbacks and the ActiveCOVSubscriptions property: they only log or read the lists that are modelled.
- `Device.who_has` raises NotImplementedError in the source and is not modelled beyond that.
- The device password is the `devicePassword` parameter, standing for the `getattr` of `_dcc_password`.
- Reads of `self.localDevice` in an application made without a device, beyond those in Findings: the `ChangeOfValueServices` constructor (bacpypes/service/cov.py:414), which the model does not build, and `do_DeviceCommunicationControlRequest` (bacpypes/service/device.py:387), where the attribute itself is missing and raises AttributeError. The DCC model takes the password as a parameter, so it reads no device and models no such error.
- The registration side effect of registering a class in a module-wide table.
- The scheduling of the BBMD's recurring FDT-ageing task: ageing is a separate operation.
- ClientSsm.ClientSSM.Finish and ClientSsm.ClientSSM.Abort, and the ServerSSM handlers that end a transaction (ServerSsm.ServerSSM.Abort, Confirmation, OnResponseSegmentAck, HandleTimeout, SegmentedResponseTimeout and the other handlers), move the SSM with Ssm.SSM.SetState: they change the state and timer but do not release the device record. The release on a final state is modelled once, in ClientSsm.ClientSSM.SetState and ServerSsm.ServerSSM.SetState, and the removal from the access point's lists is StateMachineAp.StateMachineAccessPoint.RemoveClient and StateMachineAp.StateMachineAccessPoint.RemoveServer.
- AccessRequest messages: the keyword defaults `hashFn=0` and `username=''` of bacpypes/bsll/bslci.py:123 are not modelled as defaults; a message always carries both, and an empty username is the empty sequence, which adds nothing to the length, as bacpypes/bsll/bslci.py:130-131 do.
- The client transaction's attribute mapping: `device_info` is `remoteDevice`, whose record is acquired by its device instance `remoteDevice.deviceIdentifier` (the record itself is refused by `acquire`, see Findings), `pdu_address` is `peer`, `apduTimeout` is the access point's `retryTimeout`, `numberOfApduRetries` is its `retryCount`, the segmentation settings come from the access point, and `fill_window` is the SSM's `FillWindow` (bacpypes/app/ssm.py:141). No class defines `fill_window`, so as written an in-window segment ack with segments left (bacpypes/app/client_ssm.py:192) and a segmented-request timeout with retries left (bacpypes/app/client_ssm.py:240) raise AttributeError. ClientSsm.ClientSSM.OnSegmentAck, ClientSsm.ClientSSM.SegmentedRequestTimeout and ClientSsmProperties.AckedWindowSendsNext send the window instead.
- SegmentAckStep (ClientSsm.SegmentAckStep), SegmentedRequestTimeoutStep (ClientSsm.SegmentedRequestTimeoutStep), OnSegmentAck (ClientSsm.ClientSSM.OnSegmentAck) and SegmentedRequestTimeout (ClientSsm.ClientSSM.SegmentedRequestTimeout) send the window with `FillWindow` where the source calls the undefined `fill_window`, as the mapping above says; as written bacpypes/app/client_ssm.py:192 and bacpypes/app/client_ssm.py:240 raise AttributeError.
- SegmentedRequestStep (ClientSsm.SegmentedRequestStep) and OnSegmentedRequest (ClientSsm.ClientSSM.OnSegmentedRequest) hand an error, reject or abort received during a segmented request to the application, as the Findings row bacpypes/app/client_ssm.py:229 corrects it; as written that APDU is lost with a TypeError (ClientSsm.SegmentedRequestProblemAsWritten).
- AckedWindowSendsNext (ClientSsmProperties.AckedWindowSendsNext) is stated with `fill_window` read as `FillWindow`; as written bacpypes/app/client_ssm.py:192 raises AttributeError.
- IdleStep (ServerSsm.IdleStep), OnIdle (ServerSsm.ServerSSM.OnIdle) and Synced: bacpypes/app/server_ssm.py:176-186 change `segmentationSupported` in place on the device record the transaction shares with the device information cache, and then call `update_device_info`. The model changes only the transaction's copy of the record. It neither changes the cache's record nor models the `update_device_info` call.
- IdleOutcome (ServerSsmProperties.IdleOutcome): its segmentation sync is that of the transaction's copy only, as for OnIdle.
- bacpypes/errors.py is not part of this model. MissingRequiredParameter, ParameterOutOfRange, InconsistentParameters and UnrecognizedService are taken as subclasses of RejectException, as bacpypes declares them (`App.IsReject`).
- The legacy duplicate modules of the repository and the lower-priority application modules (object and property definitions, the console and the test harness) are outside the core modelled here.

## Findings

| source | as written | input that shows it | evidently intended | confidence | as-written member | corrected member |
|---|---|---|---|---|---|---|
| bacpypes/network/npdu.py:240-243 | RouterBusyToNetwork encodes the attribute `ratnNetworkList`, which is never set | any Router-Busy-To-Network message | encode the message's own network list | not executed | Npdu.RouterBusyAsWritten | Npdu.BodyRoundTrip |
| bacpypes/network/npdu.py:495-543 | What-Is-Network-Number and Network-Number-Is set no message type | a What-Is-Network-Number message | carry message types 0x12 and 0x13 | not executed | Npdu.NetworkNumberAsWritten | Npdu.NetworkMessageRoundTrip |
| bacpypes/bsll/registry.py:17-18 | the registering decorator returns None, so the decorated class name is bound to None | building a Result message | the decorator returns the class it registers | not executed | Bslpdu.ResultResponseAsWritten | Bslpdu.ResultResponse |
| bacpypes/bsll/utils.py:19 | `find` with a one-character str on a bytes buffer raises TypeError; past it, `ord(data[2])` at line 29 would raise TypeError too, since indexing bytes gives an int | any non-empty stream buffer | search for the octet 0x83 and read the length octets as integers | not executed | Packetize.PacketizeAsWrittenFails | Packetize.PacketizeFrames |
| bacpypes/app/deviceinfo.py:89-130 | a freshly created record is never stored in the cache | an I-Am from an unknown device | the new record is entered under its keys | not executed | DeviceInfos.DeviceInfoCache.IamDeviceInfoAsWritten | DeviceInfos.DeviceInfoCache.IamDeviceInfo |
| bacpypes/app/client_ssm.py:229 | `self.response = apdu` is followed by calling `self.response` | a segmented request answered by an Error | pass the APDU to the response callback | not executed | ClientSsmProperties.SegmentedRequestErrorLost | ClientSsm.ClientSSM.OnSegmentedRequest |
| bacpypes/app/client_ssm.py:21 | the constructor reads `self.device_info` before it exists | constructing any client transaction | take the remote device's information from the argument | not executed | ClientSsm.NewClientAlwaysFails | ClientSsm.ClientSSM.constructor |
| bacpypes/app/client_ssm.py:22 | `acquire(self.device_info)` passes the record, and `acquire` raises TypeError for anything but an instance number or an address (bacpypes/app/deviceinfo.py:139-140) | constructing a client transaction to a device the cache knows | acquire by the record's device instance, `device_info.deviceIdentifier` | not executed | ClientSsm.AcquireRecordAsWritten | ClientSsm.ClientSSM.constructor |
| bacpypes/app/server_ssm.py:28 | `release_device_info` does not exist on the cache, and no server transaction acquires its record (bacpypes/app/server_ssm.py:16-17) | a server transaction reaching a final state | acquire the record when the transaction is made, as a client transaction does, and release it with `release` on a final state | not executed | ServerSsmProperties.ReleaseFails | ServerSsm.ServerSSM.SetState |
| bacpypes/app/server_ssm.py:97 | `min(None, ...)` when the peer's maximum NPDU length is unknown | a response to a device with no known maximum NPDU length | bound the segment size by the remote device's largest APDU alone | not executed | ServerSsmProperties.UnknownNpduLength | ServerSsm.ResponseSegmentSize |
| bacpypes/app/app.py:78 | `self.localDevice` is read but never set when there is no device | adding an object to an application without a device | skip the object-list update | not executed | AppProperties.AddWithoutDevice | AppProperties.AddObjectSpec |
| bacpypes/app/app.py:93 | `self.localDevice` is read but never set when there is no device | deleting an object from an application without a device | skip the object-list update | not executed | AppProperties.DeleteWithoutDevice | AppProperties.DeleteRegistered |
| bacpypes/service/cov.py:428 | `cov.isScheduled` and `suspend_task` do not exist | cancelling an existing subscription | cancel the subscription's lifetime timer through its handle and remove the subscription | not executed | CovProperties.CancelNeverRemoves | CovProperties.MatchCancelRemoves |
| bacpypes/service/cov.py:171 | `cov.taskTime` does not exist | a subscription with a lifetime present when notifying | compute the remaining lifetime from its expiry time | not executed | CovProperties.NotificationsAsWrittenStop | CovProperties.NotificationsSpec |
| bacpypes/comm/io_controller.py:29-82 | the controller writes camelCase attributes (`ioState`) while the IOCB reads snake_case ones (`io_state`) | activating an IOCB that never went through `request_io`, which alone sets `ioState` | one attribute name on both sides | not executed | IocbProperties.ActiveIoAsWrittenFails | IocbProperties.ActiveIoSpec |
| bacpypes/comm/iocb.py:127-130 | adding a callback to a completed IOCB calls every callback again | two callbacks added after completion | call only the callback just added | not executed | IocbProperties.AddCallbackAsWrittenRepeats | IocbProperties.AddCallbackSpec |
| bacpypes/service/device.py:96-99 | deleting from `kwargs` while iterating over it raises RuntimeError | creating a device with a password argument | remove the password argument after the loop | not executed | DeviceProperties.PasswordDeviceAsWritten | DeviceProperties.InitializedProperties |
| bacpypes/service/device.py:397-408 | `suspend_task` is called on the handle returned by `call_later` | a timed Disable of communication | cancel the timer handle | not executed | DeviceProperties.TimedDisableAsWritten | DeviceProperties.TimedDisableExpires |
| bacpypes/bsll/tcp_server_mux.py:227 | the challenge is the digest of a `str` of 128 random characters, and the hashlib digests take only octets, so TypeError is raised after `conn.userinfo` is stored | an Access-Request from a user the service knows | hash 128 random octets and send the challenge | not executed | TcpServerMuxProperties.AccessRequestAsWrittenRaises | TcpServerMuxProperties.AccessRequestSpec |
| bacpypes/service/device.py:186-341 | `self.localDevice` is read at the guard of `do_WhoIsRequest`, `i_am`, `do_WhoHasRequest` and `i_have`, but an application without a device never sets it | a Who-Is to an application without a device | do nothing without a local device | not executed | DeviceProperties.NoDeviceAsWritten | DeviceProperties.DoWhoIsRequestSpec |
