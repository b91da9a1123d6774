/** The public tracking page: what a requester can see of the lifecycle. */
module Tracking {
  import opened Options
  import opened Records

  datatype TrackingView = NotFound | StatusView(status: Status) | ApprovedView(replyText: string)

  /** `resolution` is the org and request the token maps to; a missing reply falls back to the empty text. */
  function GetTrackingView(db: Db, resolution: Option<(nat, nat)>): TrackingView {
    match resolution
    case None => NotFound
    case Some(key) =>
      if !Owned(db, key.0, key.1) then NotFound
      else
        var row := db.requests[key.1];
        if row.status == Approved then ApprovedView(match row.reply case None => "" case Some(t) => t)
        else StatusView(row.status)
  }
}
