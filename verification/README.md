# osmo-remsim, verified

osmo-remsim lets modems use SIM cards that sit in remote card readers. A central remsim-server tells
each remsim-bankd which of its bank slots serves which client slot; the parties talk RSPRO, an ASN.1
protocol encoded in DER. This project models the parts of the program where a small slip costs most,
in Dafny, and proves what they promise for every input, every run and every reachable state.

Three large cores and two small ones are covered.

- **The BER/DER codec** (`Tlv`, `SkipLength`, `TagChain`, `Integers`, `OctetString`, `Descriptors`,
  `BerDecoder`, `DecoderLoops`, `DerEncoder`, `Restart`, `BerForms`, `Soundness`, `Refusals`, `TlvLaws`, `Rspro`,
  `Wire`). Type descriptors are a
  datatype, so the theorems hold for every descriptor: a DER encoding fed to the restartable decoders in any
  pieces wants more until it is complete and then gives back the value, having consumed exactly the encoding
  (`Restart.AnyPieces`, with `Restart.Resume` as the one-call induction over types and decoder states). The
  other forms that section 8 of X.690 allows, with indefinite lengths, strings in segments and unknown values
  behind the members of an extensible SEQUENCE, nested in any way, decode to the same value
  (`BerForms.BerDecode`). On any octets whatever, in any pieces, a structure the decoders call decoded is
  complete (`Soundness.FeedSound`), what does not belong is refused, and nothing is waited for that cannot
  come (`Refusals`). The two-pass encoder emits what it estimated and succeeds exactly when that fits.
  The RSPRO tables are shown to meet the hypotheses. Functions give the meaning; the loops of the source are
  methods proved equal to them, and `Wire.Exchange` runs them from end to end.
- **The slot-mapping replication protocol** (`SlotTable`, `Replication`, `Coherence`, `Agreement`,
  `Replicas`, `ServerLaws`, `RsproServer`). Server, bankds and the two in-order channels of each connection form one
  state machine. Coherence of lists and states is an invariant of every run; the "first entry" of a
  list is shown to be the right one; bankd's table agrees with what the server believes in every state
  of a run if and only if every PUSH of that run meets a condition on what is pending
  (`Replicas.RunAgreement`); and what bankd keeps although nobody lists it is exactly what was deleted while
  it was UNACKNOWLEDGED (`Replicas.RunOrphans`).
- **The client's FSM pair** (`ClientFsm`, `Backoff`): nested synchronous dispatches refine a flat product
  table on which the invariants are proved, and the timed back-off keeps attempts apart.
- **Small cores**: the PER bit sink and source (`Bits`, `PerBits`) and the KI-proxy round robin (`KiProxy`).

Conventions of the model: integers are unbounded where the source cannot overflow, and 16-, 32- and 64-bit
widths are written out where they matter (`long` and lengths have 64 bits). Each REST callback and each FSM
event is one atomic step, which src/slotmap.c:96-98 assumes too. osmo_fsm is taken to refuse events
outside the in-mask and changes outside the out-mask, and to run onleave, the new state, onenter. Time is
a parameter. Whether the stream library calls back at once when a stream is closed is a parameter of each
client event. Standards are cited by section of ITU-T X.690 and X.691.

Where the code does something other than one would expect, the model follows the code:

- Result codes of bankd are ignored by the server (src/server/rspro_server.c:415-429).
- A map deleted through REST while UNACKNOWLEDGED is only taken off the global list
  (src/server/rest_api.c:378-382). `Replicas.DeletedWhileUnacknowledged` is a run in which bankd keeps it
  for good, `Replicas.TidyExact` and `Replicas.QuiescentListed` say exactly when that is excluded, and
  `Replicas.RefusedCreate` goes on to a PUSH after which server and bankd disagree.
- A create request for a bank slot in use removes its owner even if the new pair is then refused
  (src/bankd/bankd_main.c:222-237).
- A PUSH may be dispatched whether or not something is pending: the guard at
  src/server/rspro_server.c:879-885 stores emptiness in variables named `non_empty_*`.
- `CHOICE_decode_ber` does not return on some inputs: in the loop over end-of-contents octets a zero octet
  followed by another octet takes neither branch (src/rspro/constr_CHOICE.c:308-345). The model has the
  outcome STUCK for a call that does not return; `BerDecoder.StuckExactly` says for which octets that is, and
  `Rspro.RsproStuckExactly` that an RSPRO PDU can hold them.
- With an EXPLICIT tag of indefinite length around a constructed string, a call that stops between the two
  headers changes what is consumed in all by the two octets that end the outer length
  (src/rspro/OCTET_STRING.c:202-236, `OctetString.ExplicitSplit`).
- A primitive length octet 0x80 reads as length zero (src/rspro/ber_tlv_length.c:20-40).
- ESTABLISH while the client link waits in REESTABLISH_DELAY resets the delay index but not the running
  timer, the state change being outside the mask (src/rspro_client_fsm.c:593-596).

## Model

| member | source | states |
|---|---|---|
| Tlv.BerFetchTag | src/rspro/ber_tlv_tag.c:9-58 | the fetching loop computes the verdict `FetchTag`: more wanted, malformed, or the tag and the octets used |
| Tlv.BerTlvTagSerialize | src/rspro/ber_tlv_tag.c:103-143 | returns the size of the tag octets and, when they fit, leaves exactly them in the buffer and touches nothing else |
| Tlv.FetchTagRoundTrip | src/rspro/ber_tlv_tag.c:9-143 | fetching a serialised tag, constructed bit or not and whatever follows, gives the tag and uses exactly its octets |
| Tlv.FetchTagStable | src/rspro/ber_tlv_tag.c:9-58 | a verdict on a prefix never changes when octets are appended |
| Tlv.TagPrefixWantsMore | src/rspro/ber_tlv_tag.c:9-58 | every proper prefix of a serialised tag wants more |
| Tlv.BerFetchLength | src/rspro/ber_tlv_length.c:9-75 | the fetching loop computes `FetchLength`, with its overflow limits and the indefinite form |
| Tlv.DerTlvLengthSerialize | src/rspro/ber_tlv_length.c:141-177 | returns the size of the shortest definite length and, when it fits, leaves exactly those octets |
| Tlv.FetchLengthRoundTrip | src/rspro/ber_tlv_length.c:9-177 | every length below the overflow limit is read back, whatever follows |
| Tlv.FetchLengthStable | src/rspro/ber_tlv_length.c:9-75 | a verdict on a prefix never changes when octets are appended |
| Tlv.LengthPrefixWantsMore | src/rspro/ber_tlv_length.c:9-75 | every proper prefix of a serialised length wants more |
| TlvLaws.LongTagMeans | src/rspro/ber_tlv_tag.c:28-57 | a tag in the long form, with any number of groups, has the number they spell and is refused exactly when that exceeds 30 bits |
| TlvLaws.ShortTagMeans | src/rspro/ber_tlv_tag.c:9-27 | a tag in the short form has the class and number of its octet |
| TlvLaws.LongLengthMeans | src/rspro/ber_tlv_length.c:36-72 | a length in the long form, minimal or not, is the number its octets spell and is refused exactly when that is over the limit |
| TlvLaws.OtherLengthMeans | src/rspro/ber_tlv_length.c:14-34 | the short form, the indefinite form and the reserved first octet |
| TlvLaws.ShortestTag | src/rspro/ber_tlv_tag.c:103-143 | no other octets that read as a tag are fewer than those written, section 8.1.2 of X.690 |
| TlvLaws.ShortestLength | src/rspro/ber_tlv_length.c:141-177 | no other octets that read as a length are fewer than those written, section 10.1 of X.690 |
| SkipLength.BerSkipLength | src/rspro/ber_tlv_length.c:77-139 | the recursive loop terminates on every input and computes `Skip`, which never returns more than the octets there are |
| SkipLength.SkipExact | src/rspro/ber_tlv_length.c:77-139 | a well-formed value with arbitrarily nested definite and indefinite lengths is skipped exactly, whatever follows |
| SkipLength.SkipStable | src/rspro/ber_tlv_length.c:77-139 | a verdict on a prefix never changes when octets are appended |
| SkipLength.SkipPrefixWantsMore | src/rspro/ber_tlv_length.c:77-139 | every proper prefix of a well-formed value wants more |
| Refusals.SkipRefuses | src/rspro/ber_tlv_length.c:77-139 | a malformed length or tag, at whatever depth, is refused; a definite length is skipped exactly or waited for |
| TagChain.BerCheckTL | src/rspro/ber_decoder.c:136-259 | one TL against one expected tag: fetched, refused or accepted as `CheckTL` says |
| TagChain.BerCheckTags | src/rspro/ber_decoder.c:64-283 | the loop over the tags, resumed at the step it remembered, computes `CheckTags` |
| TagChain.CheckTagsResume | src/rspro/ber_decoder.c:64-283 | resumed at any TL of a written chain and given any prefix or extension of the rest, the checker accepts exactly the chain or stops before the first incomplete TL, remembers it and wants more |
| TagChain.ChainThenBody | src/rspro/ber_decoder.c:64-283 | the same with the contents behind the chain: how much is consumed and what is still to come |
| TagChain.ChainRoundTrip | src/rspro/der_encoder.c:76-165 | for every tag list and mode, what was written is accepted in one call, consumed exactly, and the contents length comes back |
| Refusals.CheckTagsMeans | src/rspro/ber_decoder.c:64-283 | on any octets, acceptance means that the tags read are those expected, that each length ends where the one around it does or all are indefinite, and that the last form is the one asked for |
| Refusals.WantMeans | src/rspro/ber_decoder.c:136-259 | more is wanted of a TL only while its tag or its length is not all there |
| Refusals.AnyMeans | src/rspro/ber_decoder.c:115-135 | an untagged ANY takes any one TL |
| DerEncoder.Sink.Put | src/rspro/der_encoder.c:37-48 | a chunk is appended whole exactly when it fits, otherwise nothing changes |
| DerEncoder.WriteTL | src/rspro/der_encoder.c:169-200 | without a sink the size of the TL, with one the TL itself or failure exactly when it does not fit |
| DerEncoder.TagLengths | src/rspro/der_encoder.c:135-147 | the right-to-left loop gives each TL the length of everything inside it |
| DerEncoder.EmitChain | src/rspro/der_encoder.c:152-165 | the emitting loop puts out exactly the chain, or fails exactly when it does not fit |
| DerEncoder.DerWriteTags | src/rspro/der_encoder.c:76-165 | the estimate is the size of the chain; what is emitted is the chain, or failure exactly when it does not fit |
| DerEncoder.EstimateMembers | src/rspro/constr_SEQUENCE.c:524-548 | the sum of the estimates is the size of the members' encodings, failing exactly for an incomplete value |
| DerEncoder.EmitMembers | src/rspro/constr_SEQUENCE.c:561-591 | emits exactly the members' encodings; the leftover of the estimate is zero, so the final check never fails |
| DerEncoder.SequenceEncodeDer | src/rspro/constr_SEQUENCE.c:512-592 | estimate and emission agree; succeeds exactly when no mandatory member is missing and the encoding fits |
| DerEncoder.ChoiceEncodeDer | src/rspro/constr_CHOICE.c:356-445 | the same for a CHOICE, which needs an alternative that exists |
| DerEncoder.PrimitiveEncodeDer | src/rspro/asn_codecs_prim.c:83-115 | tags, then the contents in one chunk |
| DerEncoder.EncodeDer | src/rspro/der_encoder.c:14-28 | for every type and complete value the estimated size equals the octets emitted, and emission succeeds exactly when it fits |
| DerEncoder.EncodeToBuffer | src/rspro/der_encoder.c:53-70 | succeeds if and only if the value is complete and its estimate fits the buffer; then the buffer starts with the DER encoding |
| Integers.CountSuperfluous | src/rspro/INTEGER.c:69-88 | how many leading octets say nothing |
| Integers.Canonicalise | src/rspro/INTEGER.c:60-104 | in place, the buffer is left with the canonical form and the rest untouched |
| Integers.CanonKeepsValue | src/rspro/INTEGER.c:60-104 | canonicalisation keeps the two's-complement value |
| Integers.CanonIsShortest | src/rspro/INTEGER.c:60-104 | the canonical form is the one shortest form of its value, section 8.3.2 of X.690 |
| Integers.CanonIdempotent | src/rspro/INTEGER.c:60-104 | canonicalising twice is canonicalising once |
| Integers.IntegerToLong | src/rspro/INTEGER.c:1061-1119 | yields the value exactly when it fits 64 bits, and is refused otherwise |
| Integers.ToLongExact | src/rspro/INTEGER.c:1061-1119 | the conversion succeeds if and only if the value fits |
| Integers.LongToInteger | src/rspro/INTEGER.c:1350-1403 | writes the shortest form of the number |
| Integers.WordOctets | src/rspro/NativeInteger.c:147-149 | the loop lays out the eight octets of the word, high octet first |
| Integers.NativeContents | src/rspro/NativeInteger.c:134-166 | the contents of a native integer are its shortest form |
| Integers.LongRoundTrip | src/rspro/NativeInteger.c:134-166 | `asn_INTEGER2long` inverts both encoders on every long |
| OctetString.AddElement | src/rspro/OCTET_STRING.c:130-159 | the element above the current one is used again, or one is added; the stack is the old one with the new expectation on top |
| OctetString.TakeTL | src/rspro/OCTET_STRING.c:254-401 | one TL, with the stack changed in place: the outcome of `Take` |
| OctetString.RunMachine | src/rspro/OCTET_STRING.c:236-451 | the loop over the reused stack elements, changed in place, computes `Run`: one expectation pushed, charged and popped at a time |
| OctetString.ConstructedString | src/rspro/OCTET_STRING.c:236-451 | on any nesting of definite and indefinite segments the machine stops exactly at the end with the primitive segments concatenated in order, section 8.7 of X.690 |
| OctetString.StrangeSegmentRefused | src/rspro/OCTET_STRING.c:328-372 | a segment with another tag is refused, wherever it stands among the others |
| OctetString.OversizedRefused | src/rspro/OCTET_STRING.c:388-400 | a segment that reaches beyond the one around it is refused as soon as its length is read |
| OctetString.TakeWaits | src/rspro/OCTET_STRING.c:279-305 | more is wanted of a segment exactly while its tag or its length is not all there; malformed ones are refused |
| OctetString.DecodeBounded | src/rspro/OCTET_STRING.c:80-107 | however it is fed, the decoder never holds a string as long as the limit |
| OctetString.RunBounded | src/rspro/OCTET_STRING.c:86-107 | no string grows to the limit of the buffer |
| OctetString.RunResumes | src/rspro/OCTET_STRING.c:236-451 | a stopped run given more octets ends as the run on everything would |
| OctetString.PiecesRun | src/rspro/OCTET_STRING.c:236-451 | however the octets are cut into pieces, the outcome is that of one run |
| OctetString.ConstructedDecode | src/rspro/OCTET_STRING.c:202-451 | one call on a constructed encoding, plain or implicitly retagged, consumes exactly it and yields the concatenation |
| OctetString.ConstructedPieces | src/rspro/OCTET_STRING.c:202-451 | from a fresh decoder, in any pieces: more wanted until the constructed string is complete, then exactly it consumed and the concatenation there |
| OctetString.ExplicitWhole | src/rspro/OCTET_STRING.c:202-236 | an EXPLICIT tag around a constructed string: one call consumes both, end-of-contents octets included |
| OctetString.ExplicitSplit | src/rspro/OCTET_STRING.c:202-236 | stopped between the two headers, the string is the same and the consumption is that of one call if and only if the lengths are definite |
| OctetString.StringResume | src/rspro/OCTET_STRING.c:453-486 | the primitive form stopped anywhere resumes where it stopped and ends with the string |
| OctetString.StringDecodeBer | src/rspro/OCTET_STRING.c:169-511 | the decoder with its context computes `Decode` |
| Descriptors.FindMember | src/rspro/constr_SEQUENCE.c:272-342 | when no tag begins two members of a run of optional members and the member after it, the search from any member leads a tag to the member it begins, through the linear window, an untagged CHOICE or the table |
| Descriptors.AlternativeFound | src/rspro/constr_CHOICE.c:184-199 | a tag leads to the alternative it begins |
| Descriptors.EncodeBegins | src/rspro/constr_CHOICE.c:400-445 | every encoding starts with the identifier of its first tag, through untagged CHOICEs |
| DecoderLoops.Bsearch | src/rspro/constr_SEQUENCE.c:76-106 | binary search with the one-sided comparison finds a row of the tag for this member or a later one, if there is one |
| DecoderLoops.SearchTable | src/rspro/constr_SEQUENCE.c:308-341 | rewinding to the first row of the tag and scanning finds what the linear definition `Lookup` finds |
| DecoderLoops.FindByTag | src/rspro/constr_SEQUENCE.c:272-342 | linear search of at most eight members, then the table: `Find` |
| DecoderLoops.LocateMember | src/rspro/constr_SEQUENCE.c:201-384 | microphase 1: end, tail, member, skipped extension, starved or refused, as `Locate` says |
| Refusals.NextRefused | src/rspro/constr_SEQUENCE.c:343-360 | a value that is none of those that may come next is refused where the SEQUENCE is not open to extensions |
| Refusals.TailRefused | src/rspro/constr_SEQUENCE.c:438-490 | so is whatever stands behind the last member |
| Refusals.MalformedRefused | src/rspro/constr_SEQUENCE.c:232-241 | a malformed tag is refused and not waited for, wherever one may come |
| Refusals.MalformedUnknownRefused | src/rspro/constr_SEQUENCE.c:360-384 | so is an unknown value that is malformed |
| DecoderLoops.DecodeAllMembers | src/rspro/constr_SEQUENCE.c:178-437 | the loop over the members with its remembered step computes `DecodeMembers` |
| DecoderLoops.SkipToEnd | src/rspro/constr_SEQUENCE.c:438-502 | the loop computes `SkipTail` |
| BerForms.TailSkipped | src/rspro/constr_SEQUENCE.c:438-502 | any well-formed unknown values and then the end-of-contents octets are skipped exactly, whatever follows |
| BerForms.UnknownLocated | src/rspro/constr_SEQUENCE.c:308-384 | an unknown value where optional members could still come is skipped, not taken for one of them |
| DecoderLoops.SequenceDecodeBer | src/rspro/constr_SEQUENCE.c:111-506 | the phase machine computes `DecodeSequence` |
| Soundness.MembersSound | src/rspro/constr_SEQUENCE.c:178-437 | on any octets the loop leaves a member out only where it may be missing |
| Soundness.MandatoryThere | src/rspro/constr_SEQUENCE.c:210-228 | a SEQUENCE that is called decoded has every mandatory member |
| Refusals.SequenceDecides | src/rspro/constr_SEQUENCE.c:17-28 | a SEQUENCE of definite length that is all there is decided, never waited for |
| DecoderLoops.ChoiceDecodeBer | src/rspro/constr_CHOICE.c:100-354 | the phase machine computes `DecodeChoice` |
| Refusals.ChoiceDecides | src/rspro/constr_CHOICE.c:173-305 | so is a tagged CHOICE |
| Refusals.UnknownAlternativeMeans | src/rspro/constr_CHOICE.c:199-226 | an alternative that is not known is refused, or skipped exactly with nothing chosen if the CHOICE is extensible |
| DecoderLoops.ReadEocs | src/rspro/constr_CHOICE.c:308-345 | one pair of zero octets for each indefinite length; a turn that changes nothing is the loop that never ends |
| BerDecoder.StuckExactly | src/rspro/constr_CHOICE.c:308-345 | the loop comes to a turn that changes nothing if and only if fewer pairs 00 00 than it waits for are followed by 00 and an octet that is not zero |
| BerDecoder.StuckForever | src/rspro/constr_CHOICE.c:308-345 | then no number of turns leaves the loop |
| BerDecoder.EndsOtherwise | src/rspro/constr_CHOICE.c:308-345 | in all other cases some number of turns leaves it, with the outcome `SkipEocs` gives |
| Refusals.HalfPairWaits | src/rspro/constr_SEQUENCE.c:244-262 | half a pair of end-of-contents octets is waited for wherever a pair may come |
| Refusals.OtherThanEoc | src/rspro/constr_CHOICE.c:308-345 | anything else where only end-of-contents octets may come is refused |
| DecoderLoops.IntegerDecodeBer | src/rspro/NativeInteger.c:49-128 | computes `DecodeInteger`: no context, out of range fails |
| DecoderLoops.BooleanDecodeBer | src/rspro/BOOLEAN.c:42-103 | computes `DecodeBoolean`: the first octet that is not zero |
| DecoderLoops.DecodeBer | src/rspro/ber_decoder.c:29-58 | the decoder of any type computes `Decode` |
| Refusals.IntegerMeans | src/rspro/NativeInteger.c:49-128 | accepted exactly when the contents are there and fit a long, waited for exactly while they are not there, refused otherwise; the number is theirs |
| Refusals.BooleanMeans | src/rspro/BOOLEAN.c:42-103 | accepted exactly when the contents are there, and true exactly when an octet of them is not zero |
| Refusals.StringMeans | src/rspro/OCTET_STRING.c:453-486 | a primitive string is its contents, refused exactly when they are too long to hold |
| Refusals.WrongTagRefused | src/rspro/ber_decoder.c:160-179 | a wrong first tag is refused at once |
| Refusals.DecodedStays | src/rspro/constr_SEQUENCE.c:500-506 | another call on a decoded structure consumes nothing and changes nothing |
| Soundness.DecodeSound | src/rspro/constr_SEQUENCE.c:111-506 | on any octets, from any state a call that wanted more can leave: decoded means complete, wanting more leaves such a state again |
| Soundness.FeedSound | src/rspro/constr_SEQUENCE.c:111-506 | so in any number of calls on any pieces |
| Soundness.DecodedIsTyped | src/rspro/constr_SEQUENCE.c:111-506 | for a type without extensions, what is called decoded is a value of the type, booleans equal up to truth |
| Restart.IntegerResume | src/rspro/NativeInteger.c:49-128 | a starved call consumes nothing and is repeated; complete, it yields the number |
| Restart.BooleanResume | src/rspro/BOOLEAN.c:42-103 | the same, the value equal up to truth |
| Restart.MembersResume | src/rspro/constr_SEQUENCE.c:178-437 | between members, the tag that comes next leads to the next member present, or more is wanted and the state is kept |
| Restart.OneResume | src/rspro/constr_SEQUENCE.c:386-437 | inside a member, which sees no more than the SEQUENCE has left |
| Restart.SequenceResume | src/rspro/constr_SEQUENCE.c:111-506 | a SEQUENCE resumed from any state a previous call left |
| Restart.ChooseResume | src/rspro/constr_CHOICE.c:173-226 | before the alternative is known |
| Restart.ChosenResume | src/rspro/constr_CHOICE.c:228-351 | inside the alternative and after it, tagged or untagged |
| Restart.ChoiceResume | src/rspro/constr_CHOICE.c:100-354 | a CHOICE resumed from any state a previous call left |
| Restart.Resume | src/rspro/constr_SEQUENCE.c:152-506 | one call from any state the decoder can be left in, on any buffer that agrees with the rest of an encoding: complete, the value and exactly the rest consumed; incomplete, more wanted and the decoder stands at the octets it did not consume |
| Restart.RoundTrip | src/rspro/constr_SEQUENCE.c:111-592 | decoding an encoding followed by any octets returns the value and consumes exactly the encoding |
| Restart.AnyPieces | src/rspro/constr_SEQUENCE.c:152-506 | fed in any pieces, unconsumed octets presented again: more wanted until complete, then the value and the same total consumption as in a single call |
| BerForms.OpenChainChecked | src/rspro/ber_decoder.c:136-259 | a chain of indefinite lengths is accepted and consumed, and so many pairs of end-of-contents octets are announced |
| BerForms.EocsSkipped | src/rspro/constr_CHOICE.c:308-345 | so many pairs of zero octets are read, whatever follows |
| BerForms.MemberStep | src/rspro/constr_SEQUENCE.c:178-437 | one member in any form, whatever follows: the loop goes on behind it with the value in place |
| BerForms.SequenceBer | src/rspro/constr_SEQUENCE.c:111-506 | a SEQUENCE of definite or indefinite length, with unknown values behind its members if it is extensible, decodes to the value and is consumed exactly |
| BerForms.ChoiceBer | src/rspro/constr_CHOICE.c:100-354 | a CHOICE, tagged with definite or indefinite lengths or untagged, decodes to the value and is consumed exactly |
| BerForms.BerDecode | src/rspro/ber_decoder.c:29-58 | every form of every value of every valid type, nested in any way and followed by anything: one call yields the value and consumes exactly the encoding |
| BerForms.ChoiceStuckExactly | src/rspro/constr_CHOICE.c:285-345 | the decoder of a tagged CHOICE of indefinite length does not return if and only if its end-of-contents octets are cut short by an octet that is not zero |
| Rspro.IdentityValid | src/rspro/ComponentIdentity.c:9-116 | the tables of ComponentIdentity, with its run of five optional members, are in order |
| Rspro.IpPortValid | src/rspro/IpPort.c:9-46 | the tables of IpPort, with its untagged CHOICE member, are in order |
| Rspro.RsproChoiceValid | src/rspro/RsproPDUchoice.c:9-232 | the 21 alternatives and the permuted tag table match each other, and all alternatives are in order |
| Rspro.RsproValid | src/rspro/RsproPDU.c:34-79 | the RSPRO descriptor meets the hypotheses of the codec theorems all the way down |
| Rspro.RsproAnyPieces | src/rspro/RsproPDU.c:34-79 | every RSPRO PDU in any pieces |
| Rspro.RsproAnyForm | src/rspro/RsproPDU.c:34-79 | every RSPRO PDU in every form, in one call |
| Rspro.RsproSound | src/rspro/RsproPDU.c:34-79 | whatever octets arrive in whatever pieces, a decoded PDU has its version, its tag and a complete message, unless the message is one that is not known |
| Rspro.RsproStuckExactly | src/rspro/constr_CHOICE.c:308-345 | every RSPRO PDU sent with indefinite lengths keeps the decoder for ever if and only if 00 and an octet that is not zero follow its message |
| Rspro.RsproStuck | src/rspro/constr_CHOICE.c:308-345 | there is such an RSPRO input |
| Wire.Receive | src/rspro_util.c:81-95 | one decoder call per piece of the stream computes `Feed` |
| Wire.Exchange | src/rspro_util.c:58-95 | a PDU is sent if and only if it is complete and fits the buffer; however the stream cuts it up, the receiver has the value and consumed exactly the encoding |
| SlotTable.SlotIdUnique | src/slotmap.c:51-54 | the id of a map identifies its bank slot |
| SlotTable.SlotIdParts | src/slotmap.c:51-54 | the bank is the high half of the id and the slot the low half |
| SlotTable.LookupsAgree | src/slotmap.c:57-87 | on a one-to-one list both lookups of a pair find the same entry, and find it exactly when it is there |
| SlotTable.SlotMaps.FindBank | src/slotmap.c:73-87 | the list loop finds the first entry with the bank slot |
| SlotTable.SlotMaps.FindClient | src/slotmap.c:57-70 | the list loop finds the first entry with the client slot |
| SlotTable.SlotMaps.AddMap | src/slotmap.c:90-134 | the pair is appended exactly when neither slot is in use; the list stays one-to-one |
| SlotTable.SlotMaps.DeleteMap | src/slotmap.c:137-156 | the entry is removed, the rest keeps its order |
| SlotTable.SlotMaps.DeleteAll | src/slotmap.c:160-169 | the loop empties the list |
| SlotTable.SlotMaps.HandleCreate | src/bankd/bankd_main.c:208-245 | the new table and the result code of a create request |
| SlotTable.SlotMaps.HandleRemove | src/bankd/bankd_main.c:246-274 | the new table and the result code of a remove request |
| SlotTable.BankdCreateContents | src/bankd/bankd_main.c:208-245 | a create answered ok leaves the old table minus the bank slot's former owner plus the new pair; it is answered ok exactly when the pair is there afterwards |
| SlotTable.BankdRemoveContents | src/bankd/bankd_main.c:246-274 | a remove takes away exactly its pair, and is answered ok exactly when the pair was there |
| SlotTable.CreateCode | src/bankd/bankd_main.c:208-245 | each answer to a create by its cause: another bank, a slot out of range or a client held elsewhere, ok otherwise |
| SlotTable.RemoveCode | src/bankd/bankd_main.c:246-274 | each answer to a remove by its cause: another bank, a slot out of range, a pair that is not there, ok otherwise |
| SlotTable.AlwaysOneToOne | src/slotmap.c:57-169 | under any sequence of adds, deletes, creates, removes and resets the table stays a one-to-one relation |
| RsproServer.Server.FindBankd | src/server/rspro_server.c:601-609 | the list loop finds the connection of a bank id |
| RsproServer.Server.ConnectClient | src/server/rspro_server.c:168-199 | a client slot that is connected already is refused; otherwise it is added |
| RsproServer.Server.ClientLost | src/server/rspro_server.c:919-940 | a lost client leaves the list, and its slot is free |
| RsproServer.ClientStepUnique | src/server/rspro_server.c:168-199 | a connect adds its slot, a loss frees exactly the slot of the lost connection, and no slot is connected twice |
| RsproServer.ClientsUnique | src/server/rspro_server.c:168-199 | client slots are unique among connected clients over every run of connects and losses |
| RsproServer.Server.SlotsInUse | src/slotmap.c:100-112 | finds whether a listed map uses either slot |
| RsproServer.Server.Post | src/server/rest_api.c:310-356 | answered ok exactly when no listed map uses either slot; then the pair is listed at the tail as NEW and nothing else changes, else nothing changes |
| RsproServer.Server.Mark | src/server/rest_api.c:359-399 | marking one map deleted, by its state |
| RsproServer.Server.Delete | src/server/rest_api.c:401-432 | found exactly when a listed map has the id; that map and no other leaves the list; not found, nothing changes |
| RsproServer.Server.GlobalReset | src/server/rest_api.c:437-453 | the global reset step |
| RsproServer.Server.SendAll | src/server/rspro_server.c:450-462 | one loop of the PUSH handler moves each map to the next list as it is sent, in order |
| RsproServer.Server.PushBankd | src/server/rspro_server.c:448-464 | the PUSH step |
| RsproServer.Server.ConnectBankd | src/server/rspro_server.c:202-250 | the connect step: a bank id in use is refused, so bank ids stay unique; listed maps are linked and pushed |
| RsproServer.Server.HandleReply | src/server/rspro_server.c:415-447 | the reply step; the list is never empty and the assertion that a removed map is DELETING holds |
| RsproServer.Server.ConnectionLost | src/server/rspro_server.c:893-940 | the TCP_DOWN step |
| Coherence.StepInv | src/server/rspro_server.c:202-467 | every step of the protocol keeps the invariant |
| Coherence.RunInv | src/server/rspro_server.c:202-467 | every reachable state is coherent |
| Coherence.ReachableCoherent | src/slotmap.c:183-199 | in every reachable state a map is on the list of connection b and state st exactly when its bank is b and its state is st (a NEW map: while listed); DELETE_REQ and DELETING maps are never listed; the bank of a map that is not NEW is connected |
| Coherence.FirstEntry | src/server/rspro_server.c:415-447 | a reply never meets an empty list and is about its first entry; a removed map is DELETING |
| Coherence.InFlight | src/server/rspro_server.c:448-463 | a request in flight is about a map that awaits its reply |
| Agreement.CreatesLand | src/bankd/bankd_main.c:208-245 | a batch of creates lands wholly exactly when no client is in the way; the table is then the old one without the former owners plus the batch |
| Agreement.BatchExact | src/bankd/bankd_main.c:208-245 | the same with slots out of range |
| Agreement.PushExact | src/server/rspro_server.c:448-464 | PUSH keeps the drained table equal to the maps the server counts on if and only if its creates name existing slots, share no slot with a map that stays unless it is the same pair, find the client of a pending delete free, and no pending delete is of a pair another map holds |
| Agreement.QuiescentTable | src/server/rspro_server.c:407-467 | nothing in flight and nothing pending: bankd's table is exactly the ACTIVE maps |
| ServerLaws.PostEffect | src/server/rest_api.c:310-356 | a POST of a free pair lists it at the tail as NEW whether or not its bankd is connected; any other changes nothing |
| ServerLaws.PostThenConnect | src/server/rspro_server.c:373-387 | a mapping posted while its bankd is away is the last create of the next connect |
| ServerLaws.PostThenPush | src/server/rspro_server.c:448-464 | one posted while it is connected is created by the next PUSH |
| ServerLaws.PushEffect | src/server/rspro_server.c:448-464 | PUSH sends every pending create and then every pending delete, in the order of the lists, and leaves nothing pending |
| ServerLaws.DeleteNames | src/server/rest_api.c:401-432 | a DELETE names one listed map at most, and changes nothing if none |
| ServerLaws.DeleteEffect | src/server/rest_api.c:359-399 | a NEW map is freed, an ACTIVE one is to be removed from bankd, an UNACKNOWLEDGED one is only unlisted, and nothing else changes |
| ServerLaws.DeleteThenPush | src/server/rspro_server.c:456-463 | an ACTIVE map deleted through REST is removed from bankd by the next PUSH |
| ServerLaws.AnswerIsCode | src/bankd/bankd_main.c:208-274 | the answer on the channel is about the request, and says ok exactly when the list handler does |
| ServerLaws.BankdEffect | src/bankd/bankd_main.c:208-274 | bankd takes the oldest request, answers it, and nothing else changes |
| ServerLaws.ReplyEffect | src/server/rspro_server.c:415-447 | a create reply makes the map it is about ACTIVE, a remove reply frees it, whatever the code, and no other map changes |
| ServerLaws.ConnectRefused | src/server/rspro_server.c:222-239 | a bankd whose id is connected already changes nothing |
| ServerLaws.LossEffect | src/server/rspro_server.c:893-940 | a loss frees the maps that were to be removed, makes the others of the bank NEW, and touches nothing of other banks |
| Replicas.ConnectExact | src/server/rspro_server.c:373-387 | for any table bankd brings, agreement after a connect holds if and only if the listed maps land on it and replace every entry |
| Replicas.ConnectWithListed | src/server/rspro_server.c:373-387 | in particular when bankd holds only maps still listed, in range |
| Replicas.StepKept | src/server/rspro_server.c:407-467 | every step but a PUSH on the connection and its loss keeps the drained table, the maps the server counts on and their pairs |
| Replicas.StepAgree | src/server/rspro_server.c:407-467 | so such a step neither breaks the agreement nor restores it |
| Replicas.RunAgreement | src/server/rspro_server.c:407-467 | over every run on a connection, the drained table equals the UNACKNOWLEDGED, ACTIVE and DELETE_REQ maps in every state if and only if every PUSH fits |
| Replicas.CarefulAgreement | src/server/rspro_server.c:407-467 | from the connect of a bankd that holds only listed maps: slots in range, no map deleted while UNACKNOWLEDGED, no PUSH with a create and a delete on a common slot give agreement in every state |
| Replicas.StepOrphans | src/server/rest_api.c:359-399 | a step adds to the maps bankd holds though nobody lists them exactly the UNACKNOWLEDGED maps it deletes, and no step takes one away while the connection lasts |
| Replicas.RunOrphans | src/server/rest_api.c:359-399 | the same over every run on a connection |
| Replicas.TidyExact | src/server/rest_api.c:378-382 | from a connection without such maps, there are none after a run if and only if no step of it deletes an UNACKNOWLEDGED map of the bank |
| Replicas.QuiescentListed | src/server/rest_api.c:378-382 | at quiescence after any such run, bankd's table is the listed maps and those deleted while UNACKNOWLEDGED; it is the listed maps if and only if each of the latter has been posted again |
| Replicas.DeletedWhileUnacknowledged | src/server/rest_api.c:378-382 | a run from the start that ends with nothing listed, nothing pending and a mapping in bankd |
| Replicas.RefusedCreate | src/server/rspro_server.c:415-429 | a run from the start to a PUSH that does not fit, after which the server believes in a mapping bankd refused |
| Replicas.LossKeepsListed | src/server/rspro_server.c:893-940 | losing a bankd keeps every listed mapping |
| Replicas.ReconnectSendsListed | src/server/rspro_server.c:373-387 | the next connect sends exactly one create per listed map of the bank, in order, and nothing else |
| Replicas.ChannelStep | src/server/rspro_server.c:448-463 | for every step, what is on a channel afterwards is what the step left on it followed by what it sent |
| Replicas.NeverCreatedAgain | src/server/rest_api.c:359-399 | after any run, whatever step comes next, what it puts on any channel behind what was there holds no create for a map off the global list |
| Replicas.OnlyOldCreates | src/server/rest_api.c:359-399 | a create for it that is on a channel after any run was on that channel already when it was deleted |
| Replicas.DeleteUnlists | src/server/rest_api.c:401-432 | REST deletion takes the map off the list in whatever state it is |
| Replicas.ResetEmpties | src/server/rest_api.c:437-453 | a global reset empties the global list, whatever the states of the maps |
| ClientFsm.Client.LinkChange | src/rspro_client_fsm.c:563-608 | a change of the link state with the events it dispatches into the main FSM |
| ClientFsm.Client.LinkDown | src/rspro_client_fsm.c:345-371 | TCP_DOWN and keep-alive timeout in each state |
| ClientFsm.Client.Disconnect | src/rspro_client_fsm.c:534-542 | the link ends in INIT, called back or not |
| ClientFsm.Client.MainChange | src/client/main_fsm.c:361-396 | a change of the main state with the events it dispatches into the link |
| ClientFsm.Client.BankdLost | src/client/main_fsm.c:236-239 | accepted in OPERATIONAL only, the frontend is asked for the local SIM |
| ClientFsm.Client.BankdConnected | src/client/main_fsm.c:177-180 | accepted in WAIT_BANKD only, the frontend is asked for the remote SIM |
| ClientFsm.Client.Dispatch | src/client/main_fsm.c:136-358 | one top-level event with all its nested dispatches is one entry of the product table, requests to the frontend included |
| ClientFsm.FlatCoherent | src/rspro_client_fsm.c:523-608 | every event keeps OPERATIONAL equivalent to CONNECTED, and asks the frontend exactly when OPERATIONAL is entered or left |
| ClientFsm.ResetUnconfigures | src/client/main_fsm.c:352-354 | a reset request leads to UNCONFIGURED without a link from every state, and gives back the local SIM |
| ClientFsm.PortZeroUnconfigures | src/client/main_fsm.c:251-254 | so does the bankd port 0, except before the server has connected |
| ClientFsm.PortConfigures | src/client/main_fsm.c:251-259 | any other port drops what there is and starts anew |
| ClientFsm.LossRetries | src/client/main_fsm.c:236-239 | the loss of a serving bankd gives back the local SIM and leads to a retry |
| ClientFsm.DisconnectEnds | src/rspro_client_fsm.c:534-542 | a disconnect ends in INIT from every state |
| ClientFsm.AttemptSteps | src/rspro_client_fsm.c:338-371 | an attempt goes from the delay to service step by step, each on its own event only |
| ClientFsm.AttemptFails | src/rspro_client_fsm.c:545-560 | an attempt that fails goes back to the delay |
| ClientFsm.ServesOn | src/rspro_client_fsm.c:381-406 | no timer and no event of the server ends service |
| ClientFsm.ServerEvents | src/client/main_fsm.c:136-148 | what the server link reports |
| ClientFsm.ServiceReachable | src/client/main_fsm.c:136-396 | from every state but INIT a configuration and a willing bankd lead to service |
| ClientFsm.RunOk | src/client/main_fsm.c:187-222 | over any run the invariant holds and the SIM requests alternate |
| ClientFsm.RunServed | src/client/main_fsm.c:187-222 | over any run the frontend is asked for whole changes only, in order: remote SIM, ATR, card inserted, modem reset; card removed, local SIM, modem reset; in turn |
| ClientFsm.EveryRun | src/client/main_fsm.c:136-396 | from the start: OPERATIONAL exactly when the link is CONNECTED, UNCONFIGURED implies the link is INIT, remote and local SIM requests strictly alternate starting with remote |
| Backoff.Srvc.DoReestablish | src/rspro_client_fsm.c:288-319 | the timer is set to the later of the next millisecond and the last attempt plus the delay of the entry used, entry 0 after more than 32 s; already waiting, the timer runs on |
| Backoff.Srvc.HandleEstablish | src/rspro_client_fsm.c:528-533 | ESTABLISH in every state resets the counters; where nothing waits yet the attempt is 1 ms away |
| Backoff.Srvc.HandleDisconnect | src/rspro_client_fsm.c:534-542 | DISCONNECT in every state, also when destroying the stream reports TCP_DOWN first |
| Backoff.Srvc.HandleExpiry | src/rspro_client_fsm.c:448-452 | T3 makes exactly one attempt and remembers its time |
| Backoff.Srvc.Dispatch | src/rspro_client_fsm.c:345-406 | every event of the link FSM does to state, timer and counters what the model's steps do, so the attempts of the object keep their pace whatever it is told |
| Backoff.WaitBounded | src/rspro_client_fsm.c:45-62 | the wait is at most the longest entry of the table |
| Backoff.WaitIsLeast | src/rspro_client_fsm.c:306-318 | the wait is the least one the table allows |
| Backoff.EstablishAtOnce | src/rspro_client_fsm.c:528-533 | an explicit ESTABLISH is attempted after 1 ms from every state that does not wait already |
| Backoff.AttemptWhenDue | src/rspro_client_fsm.c:545-552 | the timer makes one attempt when it is due and none before |
| Backoff.TablePhases | src/rspro_client_fsm.c:45-60 | three immediate retries, then half a minute at 1 Hz, one at 1/2, two at 1/4 and four at 1/8, then every 16 s |
| Backoff.StepOk | src/rspro_client_fsm.c:423-452 | every event keeps the index in the table and the pacing of attempts |
| Backoff.RunOk | src/rspro_client_fsm.c:288-560 | so does every run with a monotone clock |
| Backoff.EveryRun | src/rspro_client_fsm.c:288-560 | attempts without an explicit ESTABLISH between them are the table delay apart; the table is walked entry by entry; a reset needs a gap over 32 s |
| Backoff.AttemptsTakeTime | src/rspro_client_fsm.c:288-319 | attempts without ESTABLISH or reset take at least the sum of their delays |
| PerBits.BitSink.PutFew | src/rspro/per_support.c:418-502 | across octet boundaries and flushes, exactly the low bits given are appended, most significant first |
| PerBits.BitSink.PutMany | src/rspro/per_support.c:563-590 | exactly the first bits of the octets are appended |
| PerBits.BitSink.PutWhole | src/rspro/per_support.c:404-413 | the low bits of the number are appended although they are put in parts from the top |
| PerBits.BitSource.GetFew | src/rspro/per_support.c:47-127 | the next bits as a number, refused exactly when there are not so many or more than 31 |
| PerBits.BitSource.GetMany | src/rspro/per_support.c:132-173 | the next bits in octets, zeros behind them or right-aligned |
| PerBits.BitSource.GetWhole | src/rspro/per_support.c:364-386 | the next bits as a number of up to 64 bits although they are read in parts of 31 from the top |
| PerBits.BitSink.Flush | src/rspro/per_encoder.c:143-158 | the octets that come out are the bits put, filled up with zero bits to an octet |
| PerBits.Transfer | src/rspro/per_support.c:364-413 | any list of numbers of up to 64 bits put into a sink, flushed and read from a source of the octets comes back as the low bits put |
| KiProxy.Pool.Choose | src/bankd/bankd_main.c:915-947 | the loop computes `Select`, the index stays in range |
| KiProxy.SelectNext | src/bankd/bankd_main.c:915-947 | no slot is found exactly when no entry is valid; otherwise the next valid position cyclically |
| KiProxy.Fair | src/bankd/bankd_main.c:915-947 | after any number of calls two valid positions' counts differ by at most one |

## Left out

- Sockets, IPA framing, keep-alive, USB, PC/SC, libcurl, JSON, logging and memory allocation: I/O or code outside this repository.
- bankd worker threads, their signals and the delivery of events to them; lock ordering and data races.
- Configuration updates sent to clients after a mapping changes (src/server/rspro_server.c:281-343).
- Termination of a server connection while its stream still exists, as after a keep-alive timeout: it returns before the maps are unlinked (src/server/rspro_server.c:923-928). The model takes teardown from the TCP_DOWN path.
- XER, the PER codecs of types, lengths and normally small numbers, constraint checks, and the generated wrappers.
- The stack-depth guard of the decoders, ANY and open types, and BIT STRING; constructed IA5String segments, whose inner tags differ.
- Restart.Resume: strings stay below 2^30 octets, the size from which the decoder's growing buffer refuses.
- BerForms.BerDecode: is about one call; decoding in pieces is proved for DER and for constructed strings.
- DerEncoder.ChoiceEncodeDer: a CHOICE with no alternatives at all, whose encoding is empty in the source, is refused here.
- OctetString.Decode: a context that no call of the decoder can have left is refused rather than followed.
- DecoderLoops.Bsearch: stands for the C library's bsearch, any of whose answers the code around it accepts.
- Decoded structures are values: that nested structures live inside one allocation is not captured.
- PerBits.BitSink.PutFew: the output callback is taken to accept what it is given.
- PerBits.BitSource.GetFew: without a refill callback.
- Replication.BankConn: the table bankd brings is any relation; what bankd did before it connected is not followed.
