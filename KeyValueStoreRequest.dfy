/**
 * A request to hestia's key-value store: a method, the key-value pairs or
 * keys it is about, and the endpoint it goes to.
 */
module KeyValueStoreRequest {
  import opened Wrappers

  /** KeyValueStoreRequestMethod: seven methods, and any other value the enum may hold. */
  datatype Method =
    | StringExists | StringGet | StringSet | StringRemove
    | SetAdd | SetList | SetRemove
    | OtherMethod(raw: int)

  type KeyValuePair = (string, string)

  /**
   * A request. The pairs constructor leaves the keys empty and the keys
   * constructor leaves the pairs empty.
   */
  datatype Request = Request(requestMethod: Method, kvPairs: seq<KeyValuePair>, keys: seq<string>, url: string)
  {
    function GetKvPairs(): seq<KeyValuePair>
    {
      kvPairs
    }

    function GetKeys(): seq<string>
    {
      keys
    }
  }

  /** KeyValueStoreRequest(method, kv_pairs, url). */
  function WithPairs(requestMethod: Method, kvPairs: seq<KeyValuePair>, url: string): (r: Request)
    ensures r.GetKvPairs() == kvPairs && r.GetKeys() == []
    ensures r.requestMethod == requestMethod && r.url == url
  {
    Request(requestMethod, kvPairs, [], url)
  }

  /** KeyValueStoreRequest(method, keys, url). */
  function WithKeys(requestMethod: Method, keys: seq<string>, url: string): (r: Request)
    ensures r.GetKeys() == keys && r.GetKvPairs() == []
    ensures r.requestMethod == requestMethod && r.url == url
  {
    Request(requestMethod, [], keys, url)
  }

  /** method_as_string: each method's own name, "UNKNOWN" for anything else. */
  function MethodAsString(m: Method): string
  {
    match m
    case StringExists => "STRING_EXISTS"
    case StringGet => "STRING_GET"
    case StringSet => "STRING_SET"
    case StringRemove => "STRING_REMOVE"
    case SetAdd => "SET_ADD"
    case SetList => "SET_LIST"
    case SetRemove => "SET_REMOVE"
    case OtherMethod(_) => "UNKNOWN"
  }

  /** The method a name stands for. */
  function MethodFromString(s: string): Option<Method>
  {
    if s == "STRING_EXISTS" then Some(StringExists)
    else if s == "STRING_GET" then Some(StringGet)
    else if s == "STRING_SET" then Some(StringSet)
    else if s == "STRING_REMOVE" then Some(StringRemove)
    else if s == "SET_ADD" then Some(SetAdd)
    else if s == "SET_LIST" then Some(SetList)
    else if s == "SET_REMOVE" then Some(SetRemove)
    else None
  }

  /** Each of the seven methods is named so that its name gives it back; "UNKNOWN" names none of them. */
  lemma {:induction false} MethodNameRoundTrip(m: Method)
    ensures !m.OtherMethod? ==> MethodFromString(MethodAsString(m)) == Some(m)
    ensures m.OtherMethod? <==> MethodAsString(m) == "UNKNOWN"
  {
    var names := ["STRING_EXISTS", "STRING_GET", "STRING_SET", "STRING_REMOVE", "SET_ADD", "SET_LIST", "SET_REMOVE"];
    assert forall i :: 0 <= i < |names| ==> names[i] != "UNKNOWN" by {
      forall i | 0 <= i < |names|
        ensures names[i] != "UNKNOWN"
      {
        assert names[i][0] != 'U';
      }
    }
    match m
    case StringExists =>
      assert names[0] == MethodAsString(m);
    case StringGet =>
      assert "STRING_GET" != "STRING_EXISTS" by { assert "STRING_GET"[7] != "STRING_EXISTS"[7]; }
      assert names[1] == MethodAsString(m);
    case StringSet =>
      assert "STRING_SET" != "STRING_EXISTS" by { assert "STRING_SET"[7] != "STRING_EXISTS"[7]; }
      assert "STRING_SET" != "STRING_GET" by { assert "STRING_SET"[7] != "STRING_GET"[7]; }
      assert names[2] == MethodAsString(m);
    case StringRemove =>
      assert "STRING_REMOVE" != "STRING_EXISTS" by { assert "STRING_REMOVE"[7] != "STRING_EXISTS"[7]; }
      assert "STRING_REMOVE" != "STRING_GET" by { assert "STRING_REMOVE"[7] != "STRING_GET"[7]; }
      assert "STRING_REMOVE" != "STRING_SET" by { assert "STRING_REMOVE"[7] != "STRING_SET"[7]; }
      assert names[3] == MethodAsString(m);
    case SetAdd =>
      assert names[4] == MethodAsString(m);
    case SetList =>
      assert "SET_LIST" != "SET_ADD" by { assert "SET_LIST"[4] != "SET_ADD"[4]; }
      assert names[5] == MethodAsString(m);
    case SetRemove =>
      assert "SET_REMOVE" != "SET_ADD" by { assert "SET_REMOVE"[4] != "SET_ADD"[4]; }
      assert "SET_REMOVE" != "SET_LIST" by { assert "SET_REMOVE"[4] != "SET_LIST"[4]; }
      assert names[6] == MethodAsString(m);
    case OtherMethod(_) =>
  }

  /** The seven names are pairwise distinct. */
  lemma MethodNamesDistinct(m: Method, n: Method)
    requires !m.OtherMethod? && !n.OtherMethod? && m != n
    ensures MethodAsString(m) != MethodAsString(n)
  {
    MethodNameRoundTrip(m);
    MethodNameRoundTrip(n);
  }
}
