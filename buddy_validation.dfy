/** `updateStatusZodSchema` (src/app/modules/travelBuddyRequest/travelBuddyRequestValidation.ts): `{ body: { status } }`. */
module BuddyValidation {
  import opened Wrappers
  import opened Json
  import opened Records

  /** The status enum: exactly its three names. */
  function ParseStatus(s: string): Option<RequestStatus> {
    if s == "PENDING" then Some(PENDING)
    else if s == "APPROVED" then Some(APPROVED)
    else if s == "REJECTED" then Some(REJECTED)
    else None
  }

  /** The status the body carries under `body.status`, or None where the schema reports an error. */
  function ParseStatusUpdate(v: Json): Option<RequestStatus> {
    if !v.JObj? then None
    else
      var body := Get(v.fields, "body");
      if body.None? || !body.value.JObj? then None
      else
        var status := Get(body.value.fields, "status");
        if status.Some? && status.value.JStr? then ParseStatus(status.value.s) else None
  }

  /** The accepted names are exactly the names of RequestStatus, each read back as its own member. */
  lemma StatusRoundTrip(s: string, st: RequestStatus)
    ensures ParseStatus(RequestStatusName(st)) == Some(st)
    ensures ParseStatus(s).Some? ==> RequestStatusName(ParseStatus(s).value) == s
  {
  }

  /** "PENDING" is accepted, so the schema does not restrict updates to the final statuses. */
  lemma PendingAccepted()
    ensures ParseStatusUpdate(JObj([("body", JObj([("status", JStr("PENDING"))]))])) == Some(PENDING)
  {
  }

  /** The status is required and must sit under `body`. */
  lemma StatusPlacement(s: string)
    ensures ParseStatusUpdate(JObj([("status", JStr(s))])) == None
    ensures ParseStatusUpdate(JObj([("body", JObj([]))])) == None
    ensures ParseStatusUpdate(JObj([("body", JObj([("status", JStr(s))]))])) == ParseStatus(s)
  {
  }
}
