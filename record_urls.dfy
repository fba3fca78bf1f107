/**
 * Reference tokens (src/services/livingAppsService.ts): a lookup field holds
 * the URL of the referenced record, and the record id is the run of 24
 * hexadecimal digits at the very end of that URL.
 */
module RecordUrls {
  import opened Seqs

  const IdLength: nat := 24
  const UrlPrefix: string := "https://my.living-apps.de/rest/apps/"
  const RecordsSegment: string := "/records/"

  /** `[a-f0-9]` under the case-insensitive flag. */
  predicate IsHexDigit(c: char)
  {
    ('0' <= c <= '9') || ('a' <= c <= 'f') || ('A' <= c <= 'F')
  }

  predicate AllHex(s: string)
  {
    forall i :: 0 <= i < |s| ==> IsHexDigit(s[i])
  }

  /** What the pattern `([a-f0-9]{24})$` captures: exactly 24 hex digits. */
  predicate IsRecordId(s: string)
  {
    |s| == IdLength && AllHex(s)
  }

  /** The last 24 characters of `s`. */
  function Tail(s: string): string
    requires |s| >= IdLength
  {
    s[|s| - IdLength..]
  }

  /**
   * `extractRecordId`: no id for an absent or empty URL; otherwise the last 24
   * characters when all of them are hex digits (case kept as written).
   */
  function ExtractRecordId(url: Option<string>): (r: Option<string>)
    ensures r.Some? ==> url.Some? && |url.value| >= IdLength && r.value == Tail(url.value)
    ensures r.Some? ==> IsRecordId(r.value)
    ensures url.Some? && |url.value| >= IdLength && AllHex(Tail(url.value)) ==> r.Some?
  {
    match url
    case None => None
    case Some(u) =>
      if u == "" then None
      else if |u| >= IdLength && AllHex(Tail(u)) then Some(Tail(u))
      else None
  }

  /** `createRecordUrl`: the REST URL of a record, ending in its id. */
  function CreateRecordUrl(appId: string, recordId: string): (r: string)
    ensures |r| == |UrlPrefix| + |appId| + |RecordsSegment| + |recordId|
    ensures r[..|UrlPrefix|] == UrlPrefix
    ensures r[|UrlPrefix|..|UrlPrefix| + |appId|] == appId
    ensures r[|UrlPrefix| + |appId|..|UrlPrefix| + |appId| + |RecordsSegment|] == RecordsSegment
    ensures r[|r| - |recordId|..] == recordId
  {
    UrlPrefix + appId + RecordsSegment + recordId
  }

  /** The id of a URL built for a 24-hex record id is that id, whatever the app id. */
  lemma RoundTrip(appId: string, recordId: string)
    requires IsRecordId(recordId)
    ensures ExtractRecordId(Some(CreateRecordUrl(appId, recordId))) == Some(recordId)
  {
    var u := CreateRecordUrl(appId, recordId);
    assert Tail(u) == recordId;
  }

  /** Only the last 24 characters matter: any prefix, hex or not, is ignored. */
  lemma ExtractIgnoresPrefix(prefix: string, s: string)
    requires |s| >= IdLength
    ensures ExtractRecordId(Some(prefix + s)) == ExtractRecordId(Some(s))
  {
    assert Tail(prefix + s) == Tail(s);
  }

  /** Inputs shorter than 24 characters have no id. */
  lemma ShortHasNoId(url: string)
    requires |url| < IdLength
    ensures ExtractRecordId(Some(url)) == None
  {
  }

  /** A URL whose last 24 characters hold a non-hex character has no id. */
  lemma NonHexTailHasNoId(url: string, i: nat)
    requires |url| >= IdLength && |url| - IdLength <= i < |url|
    requires !IsHexDigit(url[i])
    ensures ExtractRecordId(Some(url)) == None
  {
    assert !IsHexDigit(Tail(url)[i - (|url| - IdLength)]);
  }

  /**
   * Upper-case digits are accepted and come back unchanged: an id written in
   * upper case is extracted as written, not normalised.
   */
  lemma UpperCaseIdKept(prefix: string, id: string)
    requires |id| == IdLength
    requires forall i | 0 <= i < |id| :: ('0' <= id[i] <= '9') || ('A' <= id[i] <= 'F')
    ensures ExtractRecordId(Some(prefix + id)) == Some(id)
  {
    assert Tail(prefix + id) == id;
  }
}
