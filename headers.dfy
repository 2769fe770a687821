/**
 * Header maps as ordered lists of key/value pairs (keys already lower-case),
 * the configured header mutations, and the decimal rendering of the
 * x-ratelimit-* values.
 */
module Headers {

  import opened Wrappers

  datatype Header = Header(key: string, value: string)

  /** The first value of `key`, if the header is present. */
  function Get(hs: seq<Header>, key: string): (r: Option<string>)
    ensures r.Some? ==> exists i :: 0 <= i < |hs| && hs[i] == Header(key, r.value)
                                    && forall j :: 0 <= j < i ==> hs[j].key != key
    ensures r.None? <==> forall h :: h in hs ==> h.key != key
  {
    if hs == [] then None
    else if hs[0].key == key then Some(hs[0].value)
    else
      var r := Get(hs[1..], key);
      if r.None? then r
      else
        var i :| 0 <= i < |hs[1..]| && hs[1..][i] == Header(key, r.value)
                 && forall j :: 0 <= j < i ==> hs[1..][j].key != key;
        assert hs[i + 1] == Header(key, r.value);
        assert forall j :: 1 <= j <= i ==> hs[j] == hs[1..][j - 1];
        r
  }

  /** The list without any value of `key`. */
  function Remove(hs: seq<Header>, key: string): (r: seq<Header>)
    ensures forall h :: h in r <==> h in hs && h.key != key
  {
    if hs == [] then []
    else if hs[0].key == key then Remove(hs[1..], key)
    else [hs[0]] + Remove(hs[1..], key)
  }

  /** Looking a key up after appending a header: an existing value still comes first. */
  lemma {:induction false} GetAppend(hs: seq<Header>, h: Header, key: string)
    ensures Get(hs + [h], key) == if Get(hs, key).Some? then Get(hs, key)
                                  else if h.key == key then Some(h.value) else None
  {
    if hs != [] {
      assert (hs + [h])[1..] == hs[1..] + [h];
      GetAppend(hs[1..], h, key);
    }
  }

  /** Removing a key hides it and leaves every other key's first value unchanged. */
  lemma {:induction false} GetRemove(hs: seq<Header>, key: string, other: string)
    ensures Get(Remove(hs, key), other) == if other == key then None else Get(hs, other)
  {
    if hs != [] {
      GetRemove(hs[1..], key, other);
    }
  }

  /** Replaces every value of `key` with the single value `value`. */
  function SetHeader(hs: seq<Header>, key: string, value: string): (r: seq<Header>)
    ensures Get(r, key) == Some(value)
    ensures forall k :: k != key ==> Get(r, k) == Get(hs, k)
  {
    var removed := Remove(hs, key);
    GetAppend(removed, Header(key, value), key);
    GetRemove(hs, key, key);
    assert forall k :: k != key ==> Get(removed + [Header(key, value)], k) == Get(hs, k) by {
      forall k | k != key ensures Get(removed + [Header(key, value)], k) == Get(hs, k) {
        GetAppend(removed, Header(key, value), k);
        GetRemove(hs, key, k);
      }
    }
    removed + [Header(key, value)]
  }

  /** Adds one more value of `key`; an existing first value keeps precedence. */
  function AddHeader(hs: seq<Header>, key: string, value: string): (r: seq<Header>)
    ensures Get(r, key) == if Get(hs, key).Some? then Get(hs, key) else Some(value)
    ensures forall k :: k != key ==> Get(r, k) == Get(hs, k)
  {
    GetAppend(hs, Header(key, value), key);
    assert forall k :: k != key ==> Get(hs + [Header(key, value)], k) == Get(hs, k) by {
      forall k | k != key ensures Get(hs + [Header(key, value)], k) == Get(hs, k) {
        GetAppend(hs, Header(key, value), k);
      }
    }
    hs + [Header(key, value)]
  }

  datatype AppendAction = AppendIfExistsOrAdd | OverwriteIfExistsOrAdd

  /** A configured header value: a literal, or the value of a request header (`%REQ(name)%`). */
  datatype ValueSpec = Literal(text: string) | RequestHeaderValue(name: string)

  /** A configured header mutation. */
  datatype HeaderMutation = HeaderMutation(key: string, value: ValueSpec, action: AppendAction)

  /** A header mutation with its value already formatted. */
  datatype HeaderEdit = HeaderEdit(key: string, value: string, action: AppendAction)

  /** Formats a configured value against the request headers; a missing request header formats as empty. */
  function Format(v: ValueSpec, request: seq<Header>): (r: string)
    ensures v.Literal? ==> r == v.text
    ensures v.RequestHeaderValue? && Get(request, v.name).Some? ==> r == Get(request, v.name).value
    ensures v.RequestHeaderValue? && Get(request, v.name).None? ==> r == ""
  {
    match v
    case Literal(text) => text
    case RequestHeaderValue(name) => Get(request, name).GetOr("")
  }

  /** Formats each mutation, keeping the order and the keys. */
  function FormatAll(muts: seq<HeaderMutation>, request: seq<Header>): (r: seq<HeaderEdit>)
    ensures |r| == |muts|
    ensures forall i :: 0 <= i < |muts| ==>
      r[i] == HeaderEdit(muts[i].key, Format(muts[i].value, request), muts[i].action)
  {
    if muts == [] then [] else [HeaderEdit(muts[0].key, Format(muts[0].value, request), muts[0].action)] + FormatAll(muts[1..], request)
  }

  /** Applies one edit. */
  function ApplyEdit(hs: seq<Header>, e: HeaderEdit): seq<Header>
  {
    match e.action
    case OverwriteIfExistsOrAdd => SetHeader(hs, e.key, e.value)
    case AppendIfExistsOrAdd => AddHeader(hs, e.key, e.value)
  }

  /** Applies the edits in order. */
  function ApplyEdits(hs: seq<Header>, edits: seq<HeaderEdit>): seq<Header>
    decreases |edits|
  {
    if edits == [] then hs else ApplyEdits(ApplyEdit(hs, edits[0]), edits[1..])
  }

  /**
   * After the edits, the first value of a key no edit names is unchanged; an
   * overwriting edit whose key no later edit names leaves exactly its value.
   */
  lemma {:induction false} ApplyEditsGet(hs: seq<Header>, edits: seq<HeaderEdit>, key: string)
    ensures (forall i :: 0 <= i < |edits| ==> edits[i].key != key) ==> Get(ApplyEdits(hs, edits), key) == Get(hs, key)
    ensures forall i :: 0 <= i < |edits| && edits[i].key == key && edits[i].action == OverwriteIfExistsOrAdd
                      && (forall j :: i < j < |edits| ==> edits[j].key != key)
                      ==> Get(ApplyEdits(hs, edits), key) == Some(edits[i].value)
    decreases |edits|
  {
    if edits != [] {
      var next := ApplyEdit(hs, edits[0]);
      ApplyEditsGet(next, edits[1..], key);
      forall i | 0 <= i < |edits| && edits[i].key == key && edits[i].action == OverwriteIfExistsOrAdd
                 && (forall j :: i < j < |edits| ==> edits[j].key != key)
        ensures Get(ApplyEdits(hs, edits), key) == Some(edits[i].value)
      {
        if i > 0 {
          assert edits[1..][i - 1] == edits[i];
        } else {
          assert forall j :: 0 <= j < |edits[1..]| ==> edits[1..][j] == edits[j + 1];
        }
      }
    }
  }

  // -----------------------------------------------------------------------
  // Decimal values of the x-ratelimit-* headers

  function DigitChar(d: nat): char
    requires d < 10
  {
    "0123456789"[d]
  }

  function DigitValue(c: char): Option<nat>
  {
    if '0' <= c <= '9' then Some(c as int - '0' as int) else None
  }

  /** The decimal digits of `n`, most significant first, without leading zeros. */
  function Decimal(n: nat): (s: string)
    ensures 1 <= |s|
    decreases n
  {
    if n < 10 then [DigitChar(n)] else Decimal(n / 10) + [DigitChar(n % 10)]
  }

  /** Reads a non-empty string of decimal digits. */
  function ParseDecimal(s: string): Option<nat>
    decreases |s|
  {
    if |s| == 0 then None
    else
      match DigitValue(s[|s| - 1])
      case None => None
      case Some(d) =>
        if |s| == 1 then Some(d)
        else match ParseDecimal(s[..|s| - 1])
          case None => None
          case Some(high) => Some(high * 10 + d)
  }

  /** Reading back a rendered value gives the value. */
  lemma {:induction false} DecimalRoundTrip(n: nat)
    ensures ParseDecimal(Decimal(n)) == Some(n)
    decreases n
  {
    if n >= 10 {
      DecimalRoundTrip(n / 10);
      var s := Decimal(n);
      assert s[..|s| - 1] == Decimal(n / 10);
    }
  }
}
