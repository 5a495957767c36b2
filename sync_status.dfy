/**
 * The staleness test of a page: its "Last extracted time" against its "Last edited time",
 * both cut down to the minute.
 */
module SyncStatus {
  import opened Common
  import opened Blocks

  const LastExtractedTime: string := "Last extracted time"
  const LastEditedTime: string := "Last edited time"

  /** The timestamp with its seconds and microseconds set to zero. */
  function Truncate(t: Instant): (r: Instant)
    ensures r.minute == t.minute && r.second == 0 && r.micro == 0
  {
    Instant(t.minute, 0, 0)
  }

  /** The order of two timestamps: by minute, then second, then microsecond. */
  predicate AtOrBefore(a: Instant, b: Instant)
  {
    a.minute < b.minute
    || (a.minute == b.minute && (a.second < b.second || (a.second == b.second && a.micro <= b.micro)))
  }

  /**
   * True ("synced") when neither field is empty and the edit falls in the same minute as the
   * extraction or in an earlier one.
   */
  function DateTimeCompare(lastExtracted: RawTime, lastEdited: RawTime): (synced: bool)
    ensures synced <==> lastExtracted.At? && lastEdited.At?
                        && lastEdited.instant.minute <= lastExtracted.instant.minute
  {
    if lastExtracted.Blank? || lastEdited.Blank? then false
    else AtOrBefore(Truncate(lastEdited.instant), Truncate(lastExtracted.instant))
  }

  /** An edit at or before the extraction, compared exactly, is always seen as synced. */
  lemma ExactOrderImpliesSynced(extracted: Instant, edited: Instant)
    requires AtOrBefore(edited, extracted)
    ensures DateTimeCompare(At(extracted), At(edited))
  {
  }

  /** An edit later in the same minute as the extraction is still seen as synced. */
  lemma SameMinuteIsSynced(extracted: Instant, edited: Instant)
    requires edited.minute == extracted.minute && !AtOrBefore(edited, extracted)
    ensures DateTimeCompare(At(extracted), At(edited))
  {
  }

  /** The "Last extracted time" value as a string: "" when the date or its start is null. */
  function ExtractedField(p: Property): (r: Result<RawTime, Error>)
    ensures r.Err? <==> !p.DateProperty?
    ensures p.DateProperty? && p.date.None? ==> r == Ok(Blank)
    ensures p.DateProperty? && p.date.Some? ==> r == Ok(p.date.value.start)
  {
    match p
    case DateProperty(date) =>
      (match date
       case None => Ok(Blank)
       case Some(d) => Ok(d.start))
    case _ => Err(KeyError("date"))
  }

  const MissingExtractedMessage: string := "The given context does not have a 'Last extracted time' property."
  const MissingEditedMessage: string :=
    "When trying to get the syc state of an object, it does not have a 'Last edited time' property."

  /**
   * The sync state of a page from its properties: an error when either property is missing
   * (or of the wrong kind), otherwise the minute comparison of the two timestamps.
   */
  function GetSyncStatus(props: map<string, Property>): (r: Result<bool, Error>)
    ensures LastExtractedTime !in props ==> r == Err(NotionApiError(MissingExtractedMessage))
    ensures LastExtractedTime in props && !props[LastExtractedTime].DateProperty? ==> r == Err(KeyError("date"))
    ensures LastExtractedTime in props && props[LastExtractedTime].DateProperty? && LastEditedTime !in props ==>
      r == Err(NotionApiError(MissingEditedMessage))
    ensures LastExtractedTime in props && props[LastExtractedTime] == DateProperty(None) ==> r != Ok(true)
    ensures r == Ok(true) <==>
      && LastExtractedTime in props && LastEditedTime in props
      && props[LastExtractedTime].DateProperty? && props[LastExtractedTime].date.Some?
      && props[LastExtractedTime].date.value.start.At?
      && props[LastEditedTime].LastEditedTimeProperty? && props[LastEditedTime].time.At?
      && props[LastEditedTime].time.instant.minute <= props[LastExtractedTime].date.value.start.instant.minute
  {
    if LastExtractedTime !in props then Err(NotionApiError(MissingExtractedMessage))
    else
      var extracted := ExtractedField(props[LastExtractedTime]);
      if extracted.Err? then Err(extracted.error)
      else if LastEditedTime !in props then Err(NotionApiError(MissingEditedMessage))
      else
        var edited := props[LastEditedTime];
        if edited.LastEditedTimeProperty? then Ok(DateTimeCompare(extracted.value, edited.time))
        else Err(KeyError("last_edited_time"))
  }

  /** The property `update_extraction_time` writes: the current UTC time cut to the minute. */
  function ExtractionStamp(now: Instant): (p: Property)
    ensures p.DateProperty? && p.date.Some? && p.date.value.start.At?
    ensures p.date.value.start.instant == Truncate(now)
  {
    DateProperty(Some(DateValue(At(Truncate(now)))))
  }

  /**
   * Once a page's extraction time is committed at `now`, the page reads as synced for every
   * edit up to the end of that minute, and as stale again after any edit in a later minute.
   */
  lemma {:induction false} CommitThenSynced(props: map<string, Property>, now: Instant, edited: Instant)
    requires LastEditedTime in props && props[LastEditedTime] == LastEditedTimeProperty(At(edited))
    ensures GetSyncStatus(props[LastExtractedTime := ExtractionStamp(now)]) ==
            Ok(edited.minute <= now.minute)
  {
    var after := props[LastExtractedTime := ExtractionStamp(now)];
    assert after[LastEditedTime] == props[LastEditedTime];
    assert ExtractedField(after[LastExtractedTime]) == Ok(At(Truncate(now)));
  }
}
