/** The record service of src/services/applicationService.js: how each
    operation's request is built (the list query through `URLSearchParams`)
    and how the reply becomes the uniform `{ success, data | error }`
    result. The replies themselves are arguments. */
module ApplicationService {
  import opened Js
  import opened Text
  import Api

  // ------------------------------------- application/x-www-form-urlencoded

  /** The bytes the form-urlencoded serializer leaves as they are:
      `*`, `-`, `.`, digits, upper-case letters, `_`, lower-case letters. */
  predicate IsUnreservedByte(b: int) {
    || b == 0x2A || b == 0x2D || b == 0x2E || 0x30 <= b <= 0x39
    || 0x41 <= b <= 0x5A || b == 0x5F || 0x61 <= b <= 0x7A
  }

  /** A character the serializer writes unchanged. */
  predicate IsUnreservedChar(c: char) { IsUnreservedByte(c as int) }

  /** The characters a serialized name or value can hold. */
  predicate IsEncodedChar(c: char) { IsUnreservedChar(c) || c == '+' || c == '%' }

  /** The UTF-8 encoding of one code point. */
  function Utf8(c: char): (bytes: seq<int>)
    ensures 1 <= |bytes| <= 4
    ensures forall k :: 0 <= k < |bytes| ==> 0 <= bytes[k] < 0x100
    ensures (c as int) < 0x80 ==> bytes == [c as int]
    ensures (c as int) >= 0x80 ==> forall k :: 0 <= k < |bytes| ==> bytes[k] >= 0x80
  {
    var cp := c as int;
    if cp < 0x80 then [cp]
    else if cp < 0x800 then [0xC0 + cp / 0x40, 0x80 + cp % 0x40]
    else if cp < 0x1_0000 then [0xE0 + cp / 0x1000, 0x80 + (cp / 0x40) % 0x40, 0x80 + cp % 0x40]
    else [0xF0 + cp / 0x4_0000, 0x80 + (cp / 0x1000) % 0x40, 0x80 + (cp / 0x40) % 0x40, 0x80 + cp % 0x40]
  }

  /** Upper-case hexadecimal digit. */
  function HexDigit(d: int): (c: char)
    requires 0 <= d < 16
    ensures IsUnreservedChar(c)
  {
    if d < 10 then (('0' as int) + d) as char else (('A' as int) + d - 10) as char
  }

  /** One byte as the serializer writes it: space as `+`, an unreserved byte
      as itself, anything else as `%XX`. */
  function EncodeByte(b: int): (s: string)
    requires 0 <= b < 0x100
    ensures forall k :: 0 <= k < |s| ==> IsEncodedChar(s[k])
    ensures IsUnreservedByte(b) ==> s == [b as char]
  {
    if b == 0x20 then "+"
    else if IsUnreservedByte(b) then [b as char]
    else ['%', HexDigit(b / 16), HexDigit(b % 16)]
  }

  function EncodeBytes(bytes: seq<int>): (s: string)
    requires forall k :: 0 <= k < |bytes| ==> 0 <= bytes[k] < 0x100
    ensures forall k :: 0 <= k < |s| ==> IsEncodedChar(s[k])
  {
    if bytes == [] then [] else EncodeByte(bytes[0]) + EncodeBytes(bytes[1..])
  }

  /** The form-urlencoded serialization of a name or a value. Its output
      holds only unreserved characters, `+` and `%`, so never the `&` and `=`
      that separate the pairs, nor a `/`. */
  function FormEncode(s: string): (r: string)
    ensures forall k :: 0 <= k < |r| ==> IsEncodedChar(r[k])
  {
    if s == [] then [] else EncodeBytes(Utf8(s[0])) + FormEncode(s[1..])
  }

  /** A string of unreserved characters is serialized as it is. */
  lemma {:induction false} FormEncodeUnreserved(s: string)
    requires forall k :: 0 <= k < |s| ==> IsUnreservedChar(s[k])
    ensures FormEncode(s) == s
  {
    if s != [] {
      assert EncodeBytes(Utf8(s[0])) == [s[0]];
      FormEncodeUnreserved(s[1..]);
    }
  }

  /** Serialization works character by character. */
  lemma {:induction false} FormEncodeAppend(a: string, b: string)
    ensures FormEncode(a + b) == FormEncode(a) + FormEncode(b)
  {
    if a == [] {
      assert a + b == b;
    } else {
      assert (a + b)[1..] == a[1..] + b;
      FormEncodeAppend(a[1..], b);
    }
  }

  /** `name=value` with both parts serialized. */
  function EncodePair(pair: (string, string)): string {
    FormEncode(pair.0) + "=" + FormEncode(pair.1)
  }

  /** A serialized pair holds neither the `&` that separates pairs nor a
      `/`. */
  lemma EncodePairHasNoSeparator(pair: (string, string))
    ensures forall k :: 0 <= k < |EncodePair(pair)| ==> EncodePair(pair)[k] != '&' && EncodePair(pair)[k] != '/'
  {
    var a, b := FormEncode(pair.0), FormEncode(pair.1);
    forall k | 0 <= k < |a + "=" + b|
      ensures (a + "=" + b)[k] != '&' && (a + "=" + b)[k] != '/'
    {
      if k < |a| {
        assert (a + "=" + b)[k] == a[k];
      } else if k > |a| {
        assert (a + "=" + b)[k] == b[k - |a| - 1];
      }
    }
  }

  /** `URLSearchParams.toString()`: the serialized pairs joined by `&`. */
  function Serialize(pairs: seq<(string, string)>): string {
    if pairs == [] then ""
    else if |pairs| == 1 then EncodePair(pairs[0])
    else EncodePair(pairs[0]) + "&" + Serialize(pairs[1..])
  }

  /** `s.split('&')`. */
  function SplitOnAmpersand(s: string): (parts: seq<string>)
    ensures |parts| >= 1
    decreases |s|
  {
    match IndexOf(s, '&')
    case None => [s]
    case Some(i) => [s[..i]] + SplitOnAmpersand(s[i + 1..])
  }

  /** A piece without `&` followed by `&` is split off whole. */
  lemma SplitAtFirst(head: string, rest: string)
    requires forall k :: 0 <= k < |head| ==> head[k] != '&'
    ensures SplitOnAmpersand(head + "&" + rest) == [head] + SplitOnAmpersand(rest)
  {
    var s := head + "&" + rest;
    assert s[|head|] == '&';
    assert forall k :: 0 <= k < |head| ==> s[k] == head[k];
    assert IndexOf(s, '&') == Some(|head|);
    assert s[..|head|] == head;
    assert s[|head| + 1..] == rest;
  }

  /** Splitting the serialized query on `&` gives back exactly the
      serialized pairs, in the order they were appended. */
  lemma {:induction false} SplitSerialized(pairs: seq<(string, string)>)
    requires pairs != []
    ensures |SplitOnAmpersand(Serialize(pairs))| == |pairs|
    ensures forall k :: 0 <= k < |pairs| ==> SplitOnAmpersand(Serialize(pairs))[k] == EncodePair(pairs[k])
  {
    var head := EncodePair(pairs[0]);
    EncodePairHasNoSeparator(pairs[0]);
    if |pairs| == 1 {
      assert IndexOf(head, '&').None?;
    } else {
      var rest := pairs[1..];
      assert Serialize(pairs) == head + "&" + Serialize(rest);
      SplitAtFirst(head, Serialize(rest));
      SplitSerialized(rest);
      forall k | 1 <= k < |pairs|
        ensures SplitOnAmpersand(Serialize(pairs))[k] == EncodePair(pairs[k])
      {
        assert rest[k - 1] == pairs[k];
      }
    }
  }

  /** The browser's `URLSearchParams`: an ordered list of name/value pairs. */
  class SearchParams {
    var list: seq<(string, string)>

    constructor ()
      ensures list == []
    {
      list := [];
    }

    /** `append(name, value)`: the pair goes to the end. */
    method Append(name: string, value: string)
      modifies this
      ensures list == old(list) + [(name, value)]
    {
      list := list + [(name, value)];
    }

    function ToString(): string
      reads this
    {
      Serialize(list)
    }
  }

  // ------------------------------------------------------------- requests

  /** The optional filters of `getApplications`. */
  datatype Filters = Filters(status: Option<string>, search: Option<string>)

  const ListPrefix: string := "applications/?"
  const StatusParam: string := "status"
  const SearchParam: string := "search"

  /** The pairs the list query carries: `status` when it is truthy, then
      `search` when it is truthy. */
  function QueryPairs(filters: Filters): (pairs: seq<(string, string)>)
    ensures |pairs| == (if Filled(filters.status) then 1 else 0) + (if Filled(filters.search) then 1 else 0)
    ensures Filled(filters.status) ==> pairs[0] == (StatusParam, filters.status.value)
    ensures Filled(filters.search) ==> pairs[|pairs| - 1] == (SearchParam, filters.search.value)
  {
    (if Filled(filters.status) then [(StatusParam, filters.status.value)] else [])
    + (if Filled(filters.search) then [(SearchParam, filters.search.value)] else [])
  }

  /** The path `getApplications` requests. */
  function ListPath(filters: Filters): string {
    ListPrefix + Serialize(QueryPairs(filters))
  }

  /** `getApplications` building its query by successive appends. */
  method BuildListPath(filters: Filters) returns (path: string)
    ensures path == ListPath(filters)
  {
    var params := new SearchParams();
    if Filled(filters.status) {
      params.Append(StatusParam, filters.status.value);
    }
    if Filled(filters.search) {
      params.Append(SearchParam, filters.search.value);
    }
    path := ListPrefix + params.ToString();
  }

  /** With no truthy filter the request is for `applications/?`. */
  lemma UnfilteredListPath(filters: Filters)
    requires !Filled(filters.status) && !Filled(filters.search)
    ensures ListPath(filters) == ListPrefix
  {
  }

  /** With both filters the query holds exactly two pairs, `status` first
      and `search` second. */
  lemma StatusBeforeSearch(filters: Filters)
    requires Filled(filters.status) && Filled(filters.search)
    ensures SplitOnAmpersand(ListPath(filters)[|ListPrefix|..]) ==
      [EncodePair((StatusParam, filters.status.value)), EncodePair((SearchParam, filters.search.value))]
  {
    var pairs := QueryPairs(filters);
    assert ListPath(filters)[|ListPrefix|..] == Serialize(pairs);
    SplitSerialized(pairs);
  }

  /** A pair of unreserved names and values is written as `name=value`. */
  lemma EncodePairUnreserved(name: string, value: string)
    requires forall k :: 0 <= k < |name| ==> IsUnreservedChar(name[k])
    requires forall k :: 0 <= k < |value| ==> IsUnreservedChar(value[k])
    ensures EncodePair((name, value)) == name + "=" + value
  {
    FormEncodeUnreserved(name);
    FormEncodeUnreserved(value);
  }

  /** Two pairs are joined by one `&`. */
  lemma SerializeTwo(p: (string, string), q: (string, string))
    ensures Serialize([p, q]) == EncodePair(p) + "&" + EncodePair(q)
  {
    assert [p, q][1..] == [q];
  }

  /** With both filters made of unreserved characters, the query is
      written out literally. */
  lemma BothFiltersListPath(status: string, search: string)
    requires status != [] && search != []
    requires forall k :: 0 <= k < |status| ==> IsUnreservedChar(status[k])
    requires forall k :: 0 <= k < |search| ==> IsUnreservedChar(search[k])
    ensures ListPath(Filters(Some(status), Some(search))) ==
      ListPrefix + ((StatusParam + "=" + status) + "&" + (SearchParam + "=" + search))
  {
    var p1, p2 := (StatusParam, status), (SearchParam, search);
    assert QueryPairs(Filters(Some(status), Some(search))) == [p1, p2];
    SerializeTwo(p1, p2);
    EncodePairUnreserved(StatusParam, status);
    EncodePairUnreserved(SearchParam, search);
  }

  /** The HTTP verbs the service uses. */
  datatype Verb = Get | Post | Put | Delete

  /** The five exported operations with their arguments; a record id is the
      server's integer key. */
  datatype Operation =
    | GetApplications(filters: Filters)
    | GetStatistics
    | CreateApplication(data: Json)
    | UpdateApplication(id: nat, data: Json)
    | DeleteApplication(id: nat)

  /** A request as handed to the shared client: verb, relative path, body. */
  datatype Request = Request(verb: Verb, path: string, body: Option<Json>)

  /** `applications/${id}/` */
  function RecordPath(id: nat): string {
    "applications/" + Decimal(id) + "/"
  }

  /** The request each operation sends. */
  function RequestFor(op: Operation): (req: Request)
    ensures op.GetStatistics? ==> req == Request(Get, "applications/statistics/", None)
    ensures op.CreateApplication? ==> req == Request(Post, "applications/", Some(op.data))
    ensures op.UpdateApplication? ==> req == Request(Put, RecordPath(op.id), Some(op.data))
    ensures op.DeleteApplication? ==> req == Request(Delete, RecordPath(op.id), None)
    ensures op.GetApplications? ==> req == Request(Get, ListPath(op.filters), None)
  {
    match op
    case GetApplications(filters) => Request(Get, ListPath(filters), None)
    case GetStatistics => Request(Get, "applications/statistics/", None)
    case CreateApplication(data) => Request(Post, "applications/", Some(data))
    case UpdateApplication(id, data) => Request(Put, RecordPath(id), Some(data))
    case DeleteApplication(id) => Request(Delete, RecordPath(id), None)
  }

  /** Update and delete of different records target different paths. */
  lemma RecordPathsDistinct(a: nat, b: nat)
    requires RecordPath(a) == RecordPath(b)
    ensures a == b
  {
    var pa, pb := RecordPath(a), RecordPath(b);
    assert Decimal(a) == pa[13..|pa| - 1];
    assert Decimal(b) == pb[13..|pb| - 1];
    DecimalInjective(a, b);
  }

  /** The statistics path is no record's path (its segment is not a
      number). */
  lemma StatisticsPathIsNoRecordPath(id: nat)
    ensures RecordPath(id) != "applications/statistics/"
  {
    var p := RecordPath(id);
    assert p[13] == Decimal(id)[0];
  }

  /** No request of the record service is public, so each one carries the
      bearer token whenever a token is stored. */
  lemma ServiceRequestsAreAuthenticated(op: Operation, storage: map<string, string>)
    requires Api.StoredToken(storage).Some?
    ensures Lookup(Api.InterceptedHeaders(Some(RequestFor(op).path), Api.DefaultHeaders, storage), Api.AuthorizationHeader)
      == Some("Bearer " + storage[Api.AccessTokenKey])
  {
    var p := RequestFor(op).path;
    forall k | 0 <= k < |p| - 1 && p[k] == '/'
      ensures p[k + 1] != 'r' && p[k + 1] != 't'
    {
      SlashNotBeforeROrT(op, k);
    }
    Api.NoSlashBeforeROrTNotPublic(p);
  }

  /** In every service path a `/` is followed by `?`, `s`, a digit or
      nothing. */
  lemma SlashNotBeforeROrT(op: Operation, k: int)
    requires 0 <= k < |RequestFor(op).path| - 1 && RequestFor(op).path[k] == '/'
    ensures RequestFor(op).path[k + 1] != 'r' && RequestFor(op).path[k + 1] != 't'
  {
    var p := RequestFor(op).path;
    assert p[..13] == "applications/";
    if op.GetApplications? {
      SerializeHasNoSlash(QueryPairs(op.filters));
    }
  }

  /** A serialized query holds no `/`. */
  lemma {:induction false} SerializeHasNoSlash(pairs: seq<(string, string)>)
    ensures forall k :: 0 <= k < |Serialize(pairs)| ==> Serialize(pairs)[k] != '/'
  {
    if |pairs| == 1 {
      EncodePairHasNoSeparator(pairs[0]);
    }
    if |pairs| > 1 {
      SerializeHasNoSlash(pairs[1..]);
      var head := EncodePair(pairs[0]);
      EncodePairHasNoSeparator(pairs[0]);
      var s := Serialize(pairs);
      assert s == head + "&" + Serialize(pairs[1..]);
      forall k | 0 <= k < |s|
        ensures s[k] != '/'
      {
        if k < |head| {
          assert s[k] == head[k];
        } else if k > |head| {
          assert s[k] == Serialize(pairs[1..])[k - |head| - 1];
        }
      }
    }
  }

  // -------------------------------------------------------------- results

  /** What the shared client yields: the response data, or a failure with
      the error response's data when there was a response. */
  datatype Reply = Responded(data: Json) | Failed(response: Option<Json>)

  /** The `{ success, data }` / `{ success: false, error }` objects. */
  datatype ServiceResult = Succeeded(data: Option<Json>) | Rejected(error: Json)

  /** The message an operation reports when the server sent no usable
      payload. */
  function FallbackMessage(op: Operation): string {
    match op
    case GetApplications(_) => "Failed to fetch applications"
    case GetStatistics => "Failed to fetch statistics"
    case CreateApplication(_) => "Failed to create application"
    case UpdateApplication(_, _) => "Failed to update application"
    case DeleteApplication(_) => "Failed to delete application"
  }

  /** The tagged result an operation returns for a reply. It never fails:
      success carries the response data unmodified (nothing for delete);
      failure carries the server payload when it is truthy and the
      operation's own message otherwise. */
  function Settle(op: Operation, reply: Reply): (r: ServiceResult)
    ensures r.Succeeded? <==> reply.Responded?
    ensures reply.Responded? ==> r.data == if op.DeleteApplication? then None else Some(reply.data)
    ensures reply.Failed? ==> Truthy(r.error)
    ensures reply.Failed? && Present(reply.response) ==> r.error == reply.response.value
    ensures reply.Failed? && !Present(reply.response) ==> r.error == JStr(FallbackMessage(op))
  {
    match reply
    case Responded(data) => Succeeded(if op.DeleteApplication? then None else Some(data))
    case Failed(response) => Rejected(OrElse(response, JStr(FallbackMessage(op))))
  }

  /** Each operation has its own fallback message. */
  lemma FallbackMessagesDistinct(a: Operation, b: Operation)
    requires FallbackMessage(a) == FallbackMessage(b)
    ensures a.GetApplications? == b.GetApplications? && a.GetStatistics? == b.GetStatistics?
    ensures a.CreateApplication? == b.CreateApplication? && a.UpdateApplication? == b.UpdateApplication?
  {
  }
}
