/**
 * The translation and formatting helpers of hestia's C interface: item
 * kinds to internal types, identifier and io format flags to their C++
 * counterparts, the response body of a CRUD call and the copy of a string
 * into a NUL-terminated buffer.
 *
 * The flag types are bit sets whose bit values are not part of this model;
 * a flag value is the set of its distinct bits, and the NONE values are the
 * empty set.
 */
module HestiaApi {
  import opened Wrappers

  // ---------------------------------------------------------------------
  // to_subject
  // ---------------------------------------------------------------------

  /** hestia_item_t: the seven item kinds, the count marker, and any other value. */
  datatype ItemKind =
    | HestiaObject | HestiaTier | HestiaDataset | HestiaAction
    | HestiaUserMetadata | HestiaUser | HestiaNode
    | HestiaItemTypeCount
    | OutOfRange(raw: int)

  /** HsmItem::Type. */
  datatype HsmItemType = Object | Tier | Dataset | Action | Metadata | Unknown

  /** HestiaType::SystemType. */
  datatype SystemType = User | HsmNode

  /** HestiaType: an HSM item type or a system type. */
  datatype HestiaType = HsmType(item: HsmItemType) | SystemTypeOf(system: SystemType)

  /** to_subject. */
  function ToSubject(subject: ItemKind): HestiaType
  {
    match subject
    case HestiaObject => HsmType(Object)
    case HestiaTier => HsmType(Tier)
    case HestiaDataset => HsmType(Dataset)
    case HestiaAction => HsmType(Action)
    case HestiaUserMetadata => HsmType(Metadata)
    case HestiaUser => SystemTypeOf(User)
    case HestiaNode => SystemTypeOf(HsmNode)
    case HestiaItemTypeCount => HsmType(Unknown)
    case OutOfRange(_) => HsmType(Unknown)
  }

  /** The seven item kinds a client can name. */
  predicate IsItem(subject: ItemKind)
  {
    !subject.HestiaItemTypeCount? && !subject.OutOfRange?
  }

  /** The item kind a type stands for, when there is one. */
  function FromSubject(t: HestiaType): Option<ItemKind>
  {
    match t
    case HsmType(Object) => Some(HestiaObject)
    case HsmType(Tier) => Some(HestiaTier)
    case HsmType(Dataset) => Some(HestiaDataset)
    case HsmType(Action) => Some(HestiaAction)
    case HsmType(Metadata) => Some(HestiaUserMetadata)
    case HsmType(Unknown) => None
    case SystemTypeOf(User) => Some(HestiaUser)
    case SystemTypeOf(HsmNode) => Some(HestiaNode)
  }

  /**
   * Each item kind maps to a type of its own, which gives the kind back;
   * ITEM_TYPE_COUNT and every other value map to UNKNOWN.
   */
  lemma ToSubjectRoundTrip(subject: ItemKind)
    ensures IsItem(subject) ==> FromSubject(ToSubject(subject)) == Some(subject)
    ensures !IsItem(subject) <==> ToSubject(subject) == HsmType(Unknown)
  {
  }

  lemma ToSubjectInjective(a: ItemKind, b: ItemKind)
    requires IsItem(a) && IsItem(b) && ToSubject(a) == ToSubject(b)
    ensures a == b
  {
    ToSubjectRoundTrip(a);
    ToSubjectRoundTrip(b);
  }

  // ---------------------------------------------------------------------
  // to_crud_id_format
  // ---------------------------------------------------------------------

  /** The bits of hestia_id_format_t. */
  datatype IdFlag = Id | Name | ParentId | ParentName

  /** CrudIdentifier::InputFormat. */
  datatype InputFormat = NoFormat | IdOnly | NameOnly | IdParentId | IdParentName | NameParentName | NameParentId | ParentIdOnly

  /** to_crud_id_format: eight flag combinations are recognised; every other one gives NONE. */
  function ToCrudIdFormat(flags: set<IdFlag>): InputFormat
  {
    if flags == {} then NoFormat
    else if flags == {Id} then IdOnly
    else if flags == {Name} then NameOnly
    else if flags == {Id, ParentId} then IdParentId
    else if flags == {Id, ParentName} then IdParentName
    else if flags == {Name, ParentName} then NameParentName
    else if flags == {Name, ParentId} then NameParentId
    else if flags == {ParentId} then ParentIdOnly
    else NoFormat
  }

  /** The flags each input format stands for. */
  function IdFlagsOf(f: InputFormat): set<IdFlag>
  {
    match f
    case NoFormat => {}
    case IdOnly => {Id}
    case NameOnly => {Name}
    case IdParentId => {Id, ParentId}
    case IdParentName => {Id, ParentName}
    case NameParentName => {Name, ParentName}
    case NameParentId => {Name, ParentId}
    case ParentIdOnly => {ParentId}
  }

  /** Every input format is reached from its own flags. */
  lemma IdFormatRoundTrip(f: InputFormat)
    ensures ToCrudIdFormat(IdFlagsOf(f)) == f
  {
  }

  /**
   * A combination maps to something other than NONE exactly when it is one
   * of the seven recognised non-empty ones, and then it is recovered.
   */
  lemma IdFormatRecognised(flags: set<IdFlag>)
    ensures ToCrudIdFormat(flags) != NoFormat ==> IdFlagsOf(ToCrudIdFormat(flags)) == flags
    ensures ToCrudIdFormat(flags) == NoFormat <==>
              flags !in {{Id}, {Name}, {Id, ParentId}, {Id, ParentName}, {Name, ParentName}, {Name, ParentId}, {ParentId}}
  {
  }

  // ---------------------------------------------------------------------
  // to_crud_attr_format
  // ---------------------------------------------------------------------

  /** The bits of hestia_io_format_t. */
  datatype IoFlag = Ids | Json | KeyValue

  /** CrudAttributes::Format. */
  datatype AttrFormat = NoAttrs | JsonAttrs | KeyValueAttrs

  /** to_crud_attr_format: the JSON bit first, then the KEY_VALUE bit, else NONE. */
  function ToCrudAttrFormat(io: set<IoFlag>): AttrFormat
  {
    if Json in io then JsonAttrs
    else if KeyValue in io then KeyValueAttrs
    else NoAttrs
  }

  /** The result depends only on the two attribute bits, and JSON wins over KEY_VALUE. */
  lemma AttrFormatBits(io: set<IoFlag>)
    ensures ToCrudAttrFormat(io) == JsonAttrs <==> Json in io
    ensures ToCrudAttrFormat(io) == KeyValueAttrs <==> KeyValue in io && Json !in io
    ensures ToCrudAttrFormat(io) == NoAttrs <==> io <= {Ids}
    ensures ToCrudAttrFormat(io) == ToCrudAttrFormat(io - {Ids})
  {
    if Json !in io && KeyValue !in io {
      forall f | f in io
        ensures f in {Ids}
      {
        assert f != Json && f != KeyValue;
      }
    }
  }

  // ---------------------------------------------------------------------
  // process_results and str_to_char
  // ---------------------------------------------------------------------

  /** ids joined with '\n' between them, without a trailing newline. */
  function Join(ids: seq<string>): string
    decreases |ids|
  {
    if ids == [] then []
    else if |ids| == 1 then ids[0]
    else Join(ids[..|ids| - 1]) + ['\n'] + ids[|ids| - 1]
  }

  /** The pieces of a text between its '\n' characters. */
  function Lines(s: string): (r: seq<string>)
    ensures |r| >= 1
    decreases |s|
  {
    if s == [] then [[]]
    else
      var rest := Lines(s[..|s| - 1]);
      if s[|s| - 1] == '\n' then rest + [[]]
      else rest[..|rest| - 1] + [rest[|rest| - 1] + [s[|s| - 1]]]
  }

  predicate NoNewline(s: string)
  {
    forall k :: 0 <= k < |s| ==> s[k] != '\n'
  }

  lemma {:induction false} LinesOfPlain(s: string)
    requires NoNewline(s)
    ensures Lines(s) == [s]
    decreases |s|
  {
    if s != [] {
      LinesOfPlain(s[..|s| - 1]);
      assert s[..|s| - 1] + [s[|s| - 1]] == s;
    }
  }

  lemma {:induction false} LinesAppendPlain(a: string, b: string)
    requires NoNewline(b)
    ensures Lines(a + b) == Lines(a)[..|Lines(a)| - 1] + [Lines(a)[|Lines(a)| - 1] + b]
    decreases |b|
  {
    if b == [] {
      var r := Lines(a);
      assert a + b == a;
      assert r[|r| - 1] + b == r[|r| - 1];
      assert r[..|r| - 1] + [r[|r| - 1]] == r;
    } else {
      var b' := b[..|b| - 1];
      assert (a + b)[..|a + b| - 1] == a + b';
      LinesAppendPlain(a, b');
      assert Lines(a + b') == Lines(a)[..|Lines(a)| - 1] + [Lines(a)[|Lines(a)| - 1] + b'];
      assert Lines(a)[|Lines(a)| - 1] + b' + [b[|b| - 1]] == Lines(a)[|Lines(a)| - 1] + b;
    }
  }

  lemma LinesAfterNewline(a: string)
    ensures Lines(a + ['\n']) == Lines(a) + [[]]
  {
    assert (a + ['\n'])[..|a|] == a;
  }

  /** Adding a key that holds no newline adds one line. */
  lemma LinesOfJoinSnoc(front: seq<string>, last: string)
    requires front != [] && Lines(Join(front)) == front && NoNewline(last)
    ensures Lines(Join(front + [last])) == front + [last]
  {
    var ids := front + [last];
    assert ids[..|ids| - 1] == front && ids[|ids| - 1] == last;
    assert Join(ids) == (Join(front) + ['\n']) + last;
    var j := Join(front) + ['\n'];
    LinesAfterNewline(Join(front));
    LinesAppendPlain(j, last);
    assert Lines(j)[|Lines(j)| - 1] + last == last;
  }

  /** Joined primary keys that hold no newline split back into the same keys. */
  lemma {:induction false} LinesOfJoin(ids: seq<string>)
    requires ids != []
    requires forall i :: 0 <= i < |ids| ==> NoNewline(ids[i])
    ensures Lines(Join(ids)) == ids
    decreases |ids|
  {
    if |ids| == 1 {
      LinesOfPlain(ids[0]);
    } else {
      var front := ids[..|ids| - 1];
      LinesOfJoin(front);
      LinesOfJoinSnoc(front, ids[|ids| - 1]);
      assert front + [ids[|ids| - 1]] == ids;
    }
  }

  /** The body process_results builds: the joined ids, then the attribute buffer after a '\n' separator. */
  function Body(format: set<IoFlag>, ids: seq<string>, attrs: string): string
  {
    var idsPart := if Ids in format then Join(ids) else [];
    if Json in format || KeyValue in format then
      (if idsPart == [] then [] else idsPart + ['\n']) + attrs
    else idsPart
  }

  /** int from std::size_t: the value modulo 2^32, read as a signed 32-bit number. */
  function Int32Of(n: nat): (r: int)
    ensures -0x8000_0000 <= r < 0x8000_0000
    ensures n < 0x8000_0000 ==> r == n
  {
    var m := n % 0x1_0000_0000;
    if m < 0x8000_0000 then m else m - 0x1_0000_0000
  }

  /**
   * What process_results writes through its out-parameters: `response` is the
   * content of the buffer *response is set to, `length` the value stored in
   * *len_response; None means nothing is written there.
   */
  datatype Reply = Reply(response: Option<string>, length: Option<int>)

  /**
   * process_results as written: with HESTIA_IO_NONE nothing at all is
   * written, because the NONE branch assigns 0 to the parameter itself, not to the int it addresses.
   */
  function Replied(format: set<IoFlag>, ids: seq<string>, attrs: string): Reply
  {
    if format == {} then Reply(None, None)
    else
      var body := Body(format, ids, attrs);
      if body != [] then Reply(Some(body + ['\0']), Some(Int32Of(|body|)))
      else Reply(None, Some(0))
  }

  /** process_results as evidently intended: the NONE branch stores 0 in *len_response. */
  function RepliedIntended(format: set<IoFlag>, ids: seq<string>, attrs: string): Reply
  {
    if format == {} then Reply(None, Some(0)) else Replied(format, ids, attrs)
  }

  /** As written, a caller asking for no output never has its length set. */
  lemma NoneFormatLeavesLengthUnset(ids: seq<string>, attrs: string)
    ensures Replied({}, ids, attrs).length == None
  {
  }

  /**
   * As intended, the length is always written and is the size of the body,
   * which is empty for HESTIA_IO_NONE; a buffer is handed out exactly when
   * the body is non-empty.
   */
  lemma IntendedLengthIsBodySize(format: set<IoFlag>, ids: seq<string>, attrs: string)
    ensures var body := if format == {} then [] else Body(format, ids, attrs);
            RepliedIntended(format, ids, attrs).length == Some(Int32Of(|body|)) &&
            (RepliedIntended(format, ids, attrs).response.Some? <==> body != [])
  {
  }

  /**
   * The body for ids only is the ids one per line with no trailing newline;
   * with attributes too, the attribute buffer follows after one '\n'.
   */
  lemma BodyLayout(format: set<IoFlag>, ids: seq<string>, attrs: string)
    requires ids != [] && forall i :: 0 <= i < |ids| ==> NoNewline(ids[i])
    requires Ids in format
    ensures Json !in format && KeyValue !in format ==> Lines(Body(format, ids, attrs)) == ids
    ensures (Json in format || KeyValue in format) && Join(ids) != [] ==>
              Body(format, ids, attrs) == Join(ids) + ['\n'] + attrs
  {
    LinesOfJoin(ids);
  }

  /** str_to_char: a new buffer of |s| + 1 characters, those of `s` and then '\0'. */
  method StrToChar(s: string) returns (chars: array<char>)
    ensures chars.Length == |s| + 1
    ensures chars[..] == s + ['\0']
  {
    chars := new char[|s| + 1];
    var idx := 0;
    while idx < |s|
      invariant 0 <= idx <= |s|
      invariant chars[..idx] == s[..idx]
    {
      chars[idx] := s[idx];
      idx := idx + 1;
    }
    chars[|s|] := '\0';
    assert chars[..] == chars[..|s|] + [chars[|s|]];
  }

  /** The loop of process_results that appends the primary keys. */
  method JoinIds(ids: seq<string>) returns (body: string)
    ensures body == Join(ids)
  {
    body := [];
    var count := 0;
    while count < |ids|
      invariant 0 <= count <= |ids|
      invariant body == if 0 < count < |ids| then Join(ids[..count]) + ['\n'] else Join(ids[..count])
    {
      assert ids[..count + 1][..count] == ids[..count];
      body := body + ids[count];
      if count < |ids| - 1 {
        body := body + ['\n'];
      }
      count := count + 1;
    }
    assert ids[..count] == ids;
  }

  /**
   * process_results as evidently intended: returns 0 and writes what
   * RepliedIntended describes, the buffer filled by str_to_char. With
   * HESTIA_IO_NONE it stores 0 as the length, where the code as written
   * stores nothing (NoneFormatLeavesLengthUnset).
   */
  method ProcessResults(format: set<IoFlag>, ids: seq<string>, attrs: string)
    returns (rc: int, response: Option<string>, length: Option<int>)
    ensures rc == 0
    ensures Reply(response, length) == RepliedIntended(format, ids, attrs)
  {
    response := None;
    length := None;
    if format == {} {
      length := Some(0);
      return 0, response, length;
    }
    var body: string := [];
    if Ids in format {
      body := JoinIds(ids);
    }
    if Json in format || KeyValue in format {
      if body != [] {
        body := body + ['\n'];
      }
      body := body + attrs;
    }
    if body != [] {
      var chars := StrToChar(body);
      response := Some(chars[..]);
      length := Some(Int32Of(|body|));
    } else {
      length := Some(0);
    }
    return 0, response, length;
  }
}
