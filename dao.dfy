/**
 * The store of tracked URIs inside the plugin's property map
 * (keepalive.urivalues.impl.PropertiesUriValuesDAO): the comma-terminated id list under "ids",
 * six per-id properties "<key>_<id>", and the "uri#segment#id#d|c" block-list line codec.
 */
module UriValuesDao {
  import opened Wrappers
  import opened JavaText
  import opened FreenetKeys
  import opened PropertiesKeys
  import opened PluginBaseModel
  import opened PluginModel
  import opened BlockModel
  import opened UriValueModel

  // ----- the id list -----

  const ID_PARSE_FAULT := DaoFault("There is a problen with the id parsing")

  /** `Integer::parseInt` over every entry; the first entry that does not parse throws. */
  function ParseIds(parts: seq<string>): (r: Result<seq<int>>)
    ensures r.Ok? ==> |r.value| == |parts|
    ensures r.Ok? <==> forall k :: 0 <= k < |parts| ==> ParseInt(parts[k]).Some?
    ensures r.Ok? ==> forall k :: 0 <= k < |parts| ==> ParseInt(parts[k]) == Some(r.value[k])
    ensures r.Err? ==> r.fault == ID_PARSE_FAULT
  {
    if |parts| == 0 then Ok([])
    else
      match ParseInt(parts[0])
      case None => Err(ID_PARSE_FAULT)
      case Some(v) =>
        match ParseIds(parts[1..])
        case Err(e) => Err(e)
        case Ok(rest) => Ok([v] + rest)
  }

  /** `getAllUriIds()` on the stored "ids" text: none when it is null or blank. */
  function UriIds(idsText: Option<string>): (r: Result<seq<int>>)
    ensures r.Err? ==> r.fault == ID_PARSE_FAULT
  {
    if idsText.None? || IsBlank(idsText.value) then Ok([])
    else ParseIds(Split(idsText.value, ','))
  }

  function Max(xs: seq<int>): (m: int)
    requires |xs| > 0
    ensures m in xs && forall k :: 0 <= k < |xs| ==> xs[k] <= m
  {
    if |xs| == 1 then xs[0]
    else
      var m' := Max(xs[1..]);
      assert forall k :: 1 <= k < |xs| ==> xs[k] == xs[1..][k - 1];
      if xs[0] >= m' then xs[0] else m'
  }

  /** `getNewUriId()`: one more than the largest id, or 0 in an empty store; never an id in use. */
  function NewUriId(ids: seq<int>): (r: int)
    ensures |ids| == 0 ==> r == 0
    ensures |ids| > 0 ==> r - 1 in ids
    ensures forall k :: 0 <= k < |ids| ==> ids[k] < r
  {
    if |ids| == 0 then 0 else Max(ids) + 1
  }

  /** The "ids" text of a list of ids as `create` builds it: every id followed by a comma. */
  function IdsText(ids: seq<int>): string {
    if |ids| == 0 then "" else IntToString(ids[0]) + "," + IdsText(ids[1..])
  }

  /** `ids` without the occurrences of x. */
  function Without(ids: seq<int>, x: int): (r: seq<int>)
    ensures forall k :: 0 <= k < |r| ==> r[k] != x && r[k] in ids
  {
    if |ids| == 0 then []
    else if ids[0] == x then Without(ids[1..], x)
    else [ids[0]] + Without(ids[1..], x)
  }

  predicate Distinct(ids: seq<int>) {
    forall i, j :: 0 <= i < j < |ids| ==> ids[i] != ids[j]
  }

  lemma IntTextShape(n: int)
    ensures ',' !in IntToString(n) && '#' !in IntToString(n) && IntToString(n) != ""
    ensures IntToString(n)[0] > ' '
  {
    var s := IntToString(n);
    assert forall k :: 0 <= k < |s| ==> s[k] != ',' && s[k] != '#';
  }

  /** `create` appends "id," to the stored text. */
  lemma {:induction false} IdsTextAppend(ids: seq<int>, x: int)
    ensures IdsText(ids) + IntToString(x) + "," == IdsText(ids + [x])
  {
    if |ids| > 0 {
      var a, t := IntToString(ids[0]), IdsText(ids[1..]);
      IdsTextAppend(ids[1..], x);
      assert (ids + [x])[1..] == ids[1..] + [x];
      assert IdsText(ids + [x]) == a + "," + (t + IntToString(x) + ",");
      ConcatRegroup5(a, ",", t, IntToString(x), ",");
    }
  }

  /** Splitting the id text on commas leaves one empty field after the last comma. */
  lemma {:induction false} FieldsOfIdsText(ids: seq<int>)
    ensures Fields(IdsText(ids), ',') == Numerals(ids) + [""]
  {
    if |ids| > 0 {
      var a, t := IntToString(ids[0]), IdsText(ids[1..]);
      IntTextShape(ids[0]);
      assert IdsText(ids) == a + [','] + t;
      FieldsAtSeparator(a, ',', t);
      FieldsOfIdsText(ids[1..]);
      NumeralsCons(ids);
    }
  }

  lemma NumeralsCons(ids: seq<int>)
    requires |ids| > 0
    ensures Numerals(ids) + [""] == [IntToString(ids[0])] + (Numerals(ids[1..]) + [""])
  {
    var n, n1 := Numerals(ids), Numerals(ids[1..]);
    assert n == [IntToString(ids[0])] + n1;
  }

  /** Parsing the numerals of int32 ids gives the ids back. */
  lemma ParseIdsOfNumerals(ids: seq<int>)
    requires forall k :: 0 <= k < |ids| ==> InInt32(ids[k])
    ensures ParseIds(Numerals(ids)) == Ok(ids)
  {
    var parts := Numerals(ids);
    forall k | 0 <= k < |parts| ensures ParseInt(parts[k]) == Some(ids[k]) {
      ParseIntToString(ids[k]);
    }
    var r := ParseIds(parts);
    assert r.Ok?;
    assert |r.value| == |ids|;
    assert forall k :: 0 <= k < |ids| ==> r.value[k] == ids[k];
    assert r.value == ids;
  }

  /** A non-empty id text starts with a digit or '-', so it is not blank, and it holds a comma. */
  lemma IdsTextNotBlank(ids: seq<int>)
    requires |ids| > 0
    ensures !IsBlank(IdsText(ids)) && ',' in IdsText(ids)
  {
    var a := IntToString(ids[0]);
    var s := IdsText(ids);
    IntTextShape(ids[0]);
    assert s == a + "," + IdsText(ids[1..]);
    assert s[0] == a[0] && s[|a|] == ',';
    assert TrimLeft(s) == s;
    TrimRightNonEmpty(s);
  }

  /** `split(",")` of a non-empty id text is the list of numerals: the trailing empty field is dropped. */
  lemma SplitIdsText(ids: seq<int>)
    requires |ids| > 0
    ensures Split(IdsText(ids), ',') == Numerals(ids)
  {
    IdsTextNotBlank(ids);
    FieldsOfIdsText(ids);
    var n := Numerals(ids);
    assert (n + [""])[..|n|] == n;
    assert StripTrailingEmpty(n + [""]) == StripTrailingEmpty(n);
    IntTextShape(ids[|ids| - 1]);
    assert n[|n| - 1] != "";
  }

  /** The stored id text reads back as the list of ids it was built from. */
  lemma IdsTextRoundTrip(ids: seq<int>)
    requires forall k :: 0 <= k < |ids| ==> InInt32(ids[k])
    ensures UriIds(Some(IdsText(ids))) == Ok(ids)
  {
    if |ids| > 0 {
      IdsTextNotBlank(ids);
      SplitIdsText(ids);
      ParseIdsOfNumerals(ids);
    }
  }

  /** The pattern `delete` removes: ",<id>,". */
  function IdPattern(x: int): string {
    "," + IntToString(x) + ","
  }

  /** A pattern starting with a comma never matches inside a comma-free prefix. */
  lemma {:induction false} ReplaceSkipsCommaFree(b: string, s: string, p: string, rep: string)
    requires |p| > 0 && p[0] == ',' && ',' !in b
    ensures ReplaceAll(b + s, p, rep) == b + ReplaceAll(s, p, rep)
  {
    if |b| > 0 {
      ReplaceSkipsCommaFree(b[1..], s, p, rep);
      assert (b + s)[1..] == b[1..] + s;
      if |b + s| >= |p| {
        assert (b + s)[..|p|][0] == b[0] != p[0];
      }
    } else {
      assert b + s == s;
    }
  }

  /** When ",b,…" does not start with the pattern, the rewrite keeps ",b" and goes on after it. */
  lemma SkipHead(b: string, t: string, p: string, rep: string)
    requires |p| > 0 && p[0] == ',' && ',' !in b
    requires !(|"," + b + "," + t| >= |p| && ("," + b + "," + t)[..|p|] == p)
    ensures ReplaceAll("," + b + "," + t, p, rep) == "," + b + ReplaceAll("," + t, p, rep)
  {
    var s := "," + b + "," + t;
    assert s[1..] == b + ("," + t);
    ReplaceSkipsCommaFree(b, "," + t, p, rep);
  }

  /** ",a,…" starts with ",x," only when a is x. */
  lemma PatternAtHead(a: int, x: int, t: string)
    ensures var s := "," + IntToString(a) + "," + t;
      |s| >= |IdPattern(x)| && s[..|IdPattern(x)|] == IdPattern(x) ==> a == x
  {
    var s := "," + IntToString(a) + "," + t;
    var p := IdPattern(x);
    if |s| >= |p| && s[..|p|] == p {
      IntTextShape(a);
      IntTextShape(x);
      DelimitedHeadsAgree(IntToString(a), IntToString(x), t);
      IntToStringInjective(a, x);
    }
  }

  /** Two comma-free heads: ",sa,…" starts with ",sx," only when they are the same text. */
  lemma DelimitedHeadsAgree(sa: string, sx: string, t: string)
    requires ',' !in sa && ',' !in sx
    requires |"," + sa + "," + t| >= |"," + sx + ","|
    requires ("," + sa + "," + t)[..|"," + sx + ","|] == "," + sx + ","
    ensures sa == sx
  {
    var s, p := "," + sa + "," + t, "," + sx + ",";
    forall j | 0 <= j < |p| ensures p[j] == s[j] {
      assert s[..|p|][j] == s[j];
    }
    forall j | 1 <= j < 1 + |sa| ensures s[j] != ',' {
      assert s[j] == sa[j - 1];
    }
    forall j | 1 <= j < 1 + |sx| ensures p[j] != ',' {
      assert p[j] == sx[j - 1];
    }
    assert s[1 + |sa|] == ',' && p[1 + |sx|] == ',';
    assert |sa| == |sx|;
    assert sa == s[1..1 + |sa|] == p[1..1 + |sx|] == sx;
  }

  /**
   * `delete`'s rewrite of ",<ids text>": every ",x," becomes ",", which drops x from a list
   * that holds it at most once.
   */
  lemma {:induction false} DeleteFromIdsText(ids: seq<int>, x: int)
    requires Distinct(ids)
    ensures ReplaceAll("," + IdsText(ids), IdPattern(x), ",") == "," + IdsText(Without(ids, x))
    decreases |ids|, 1
  {
    if |ids| == 0 {
      assert |"," + IdsText(ids)| < |IdPattern(x)|;
    } else {
      assert Distinct(ids[1..]);
      if ids[0] == x {
        UntouchedAfterMatch(ids[1..], x);
        NotInWithout(ids[1..], x);
        DeleteAtHead(ids, x);
      } else {
        DeleteFromIdsText(ids[1..], x);
        DeleteSkipsHead(ids, x);
      }
    }
  }

  lemma DeleteAtHead(ids: seq<int>, x: int)
    requires |ids| > 0 && ids[0] == x
    requires ReplaceAll(IdsText(ids[1..]), IdPattern(x), ",") == IdsText(ids[1..])
    requires Without(ids[1..], x) == ids[1..]
    ensures ReplaceAll("," + IdsText(ids), IdPattern(x), ",") == "," + IdsText(Without(ids, x))
  {
    var p := IdPattern(x);
    var rest := IdsText(ids[1..]);
    var s := "," + IdsText(ids);
    IdsTextCons(ids);
    assert s == p + rest;
    ConcatHalves(p, rest);
  }

  lemma DeleteSkipsHead(ids: seq<int>, x: int)
    requires |ids| > 0 && ids[0] != x
    requires ReplaceAll("," + IdsText(ids[1..]), IdPattern(x), ",") == "," + IdsText(Without(ids[1..], x))
    ensures ReplaceAll("," + IdsText(ids), IdPattern(x), ",") == "," + IdsText(Without(ids, x))
  {
    var sa, t := IntToString(ids[0]), IdsText(ids[1..]);
    IdsTextCons(ids);
    WithoutKeepsHead(ids, x);
    IntTextShape(ids[0]);
    PatternAtHead(ids[0], x, t);
    SkipHeadRewrite("," + IdsText(ids), sa, t, IdPattern(x), IdsText(Without(ids[1..], x)));
  }

  lemma IdsTextCons(ids: seq<int>)
    requires |ids| > 0
    ensures "," + IdsText(ids) == "," + IntToString(ids[0]) + "," + IdsText(ids[1..])
  {
    ConcatRegroup(",", IntToString(ids[0]), ",", IdsText(ids[1..]));
  }

  lemma WithoutKeepsHead(ids: seq<int>, x: int)
    requires |ids| > 0 && ids[0] != x
    ensures IdsText(Without(ids, x)) == IntToString(ids[0]) + "," + IdsText(Without(ids[1..], x))
  {
    var w := Without(ids[1..], x);
    assert Without(ids, x) == [ids[0]] + w;
    assert ([ids[0]] + w)[1..] == w;
  }

  /** `SkipHead` with the rest of the rewrite already known. */
  lemma SkipHeadRewrite(s: string, b: string, t: string, p: string, tail: string)
    requires s == "," + b + "," + t
    requires |p| > 0 && p[0] == ',' && ',' !in b
    requires !(|s| >= |p| && s[..|p|] == p)
    requires ReplaceAll("," + t, p, ",") == "," + tail
    ensures ReplaceAll(s, p, ",") == "," + (b + "," + tail)
  {
    SkipHead(b, t, p, ",");
    CommaHeadRegroup(b, ReplaceAll("," + t, p, ","), tail);
  }

  lemma CommaHeadRegroup(b: string, r: string, tail: string)
    requires r == "," + tail
    ensures "," + b + r == "," + (b + "," + tail)
  {
    ConcatRegroup(",", b, ",", tail);
  }

  /** Without a leading comma, a text of ids other than x holds no ",x,". */
  lemma {:induction false} UntouchedAfterMatch(ids: seq<int>, x: int)
    requires Distinct(ids) && x !in ids
    ensures ReplaceAll(IdsText(ids), IdPattern(x), ",") == IdsText(ids)
    decreases |ids|, 0
  {
    if |ids| == 0 {
      assert |IdsText(ids)| < |IdPattern(x)|;
    } else {
      var sb, tail := IntToString(ids[0]), "," + IdsText(ids[1..]);
      var p := IdPattern(x);
      IntTextShape(ids[0]);
      assert Distinct(ids[1..]) && x !in ids[1..];
      DeleteFromIdsText(ids[1..], x);
      NotInWithout(ids[1..], x);
      assert ReplaceAll(tail, p, ",") == tail;
      assert IdsText(ids) == sb + tail;
      ReplaceSkipsCommaFree(sb, tail, p, ",");
    }
  }

  lemma {:induction false} NotInWithout(ids: seq<int>, x: int)
    requires x !in ids
    ensures Without(ids, x) == ids
  {
    if |ids| > 0 {
      NotInWithout(ids[1..], x);
      assert ids == [ids[0]] + ids[1..];
    }
  }

  /** The rewrite keeps the leading comma, so dropping the first character is always possible. */
  lemma ReplaceKeepsLeadingComma(s: string, x: int)
    requires |s| > 0 && s[0] == ','
    ensures |ReplaceAll(s, IdPattern(x), ",")| > 0 && ReplaceAll(s, IdPattern(x), ",")[0] == ','
  {
  }

  // ----- the block-list line codec -----

  /** What a block-list line records about a block. */
  datatype BlockLine = BlockLine(uri: FreenetUri, segmentId: int, id: int, isDataBlock: bool)

  /** A parsed line, a line `parseLine` rejects (null), or one that throws past it. */
  datatype LineResult = Parsed(line: BlockLine) | Rejected | Broken

  function LineOf(b: Block): BlockLine {
    BlockLine(b.uri, b.segmentId, b.id, b.dataBlock)
  }

  /** `convertLine(block)`: "uri#segmentId#id#d" for a data block, "…#c" for a check block. */
  function ConvertLine(b: BlockLine): string {
    Text(b.uri) + "#" + IntToString(b.segmentId) + "#" + IntToString(b.id) + "#" + (if b.isDataBlock then "d" else "c")
  }

  /**
   * `parseLine(line)`: split on '#' into at most four fields, evaluated left to right; a
   * malformed URI or number gives null, a missing third or fourth field an index error.
   */
  function ParseLine(line: string, parseUri: string -> Option<FreenetUri>): LineResult {
    var v := SplitLimit(line, '#', 4);
    match parseUri(v[0])
    case None => Rejected
    case Some(u) =>
      if |v| < 2 then Broken
      else match ParseInt(v[1])
        case None => Rejected
        case Some(seg) =>
          if |v| < 3 then Broken
          else match ParseInt(v[2])
            case None => Rejected
            case Some(id) =>
              if |v| < 4 then Broken else Parsed(BlockLine(u, seg, id, v[3] == "d"))
  }

  lemma SplitLimitStep(p: string, q: string, n: nat)
    requires '#' !in p && n >= 2
    ensures SplitLimit(p + "#" + q, '#', n) == [p] + SplitLimit(q, '#', n - 1)
  {
    IndexOfConcat(p, '#', q);
    var s := p + "#" + q;
    assert s[..|p|] == p && s[|p| + 1..] == q;
  }

  /** Four fields joined by '#', the first three without '#', split back with limit 4. */
  lemma SplitFourFields(f0: string, f1: string, f2: string, f3: string)
    requires '#' !in f0 && '#' !in f1 && '#' !in f2
    ensures SplitLimit(f0 + "#" + f1 + "#" + f2 + "#" + f3, '#', 4) == [f0, f1, f2, f3]
  {
    FourFieldsText(f0, f1, f2, f3);
    SplitGroupedFields(f0, f1, f2, f3);
  }

  lemma SplitGroupedFields(f0: string, f1: string, f2: string, f3: string)
    requires '#' !in f0 && '#' !in f1 && '#' !in f2
    ensures SplitLimit(f0 + "#" + (f1 + "#" + (f2 + "#" + f3)), '#', 4) == [f0, f1, f2, f3]
  {
    var t1 := f1 + "#" + (f2 + "#" + f3);
    SplitThreeFields(f1, f2, f3);
    SplitLimitStep(f0, t1, 4);
    PrependField(f0, SplitLimit(t1, '#', 3), f1, f2, f3);
  }

  lemma PrependField(f0: string, rest: seq<string>, f1: string, f2: string, f3: string)
    requires rest == [f1, f2, f3]
    ensures [f0] + rest == [f0, f1, f2, f3]
  {
  }

  lemma SplitThreeFields(f1: string, f2: string, f3: string)
    requires '#' !in f1 && '#' !in f2
    ensures SplitLimit(f1 + "#" + (f2 + "#" + f3), '#', 3) == [f1, f2, f3]
  {
    SplitTwoFields(f2, f3);
    SplitLimitStep(f1, f2 + "#" + f3, 3);
  }

  lemma SplitTwoFields(f2: string, f3: string)
    requires '#' !in f2
    ensures SplitLimit(f2 + "#" + f3, '#', 2) == [f2, f3]
  {
    assert SplitLimit(f3, '#', 1) == [f3];
    SplitLimitStep(f2, f3, 2);
  }

  lemma FourFieldsText(f0: string, f1: string, f2: string, f3: string)
    ensures f0 + "#" + f1 + "#" + f2 + "#" + f3 == f0 + "#" + (f1 + "#" + (f2 + "#" + f3))
  {
    ConcatRegroup(f0 + "#" + f1, "#", f2, "#" + f3);
    ConcatRegroup(f0 + "#", f1, "#", f2 + "#" + f3);
    ConcatRegroup(f0, "#", f1, "#" + (f2 + "#" + f3));
  }

  /** `convertLine` writes four '#'-separated fields. */
  lemma ConvertLineFields(b: BlockLine)
    requires '#' !in Text(b.uri)
    ensures SplitLimit(ConvertLine(b), '#', 4) ==
      [Text(b.uri), IntToString(b.segmentId), IntToString(b.id), if b.isDataBlock then "d" else "c"]
  {
    IntTextShape(b.segmentId);
    IntTextShape(b.id);
    SplitFourFields(Text(b.uri), IntToString(b.segmentId), IntToString(b.id), if b.isDataBlock then "d" else "c");
  }

  /** A line with four fields that all parse is the block they describe. */
  lemma ParseLineOfFields(line: string, parseUri: string -> Option<FreenetUri>, f: seq<string>, u: FreenetUri, seg: int, id: int)
    requires SplitLimit(line, '#', 4) == f && |f| == 4
    requires parseUri(f[0]) == Some(u) && ParseInt(f[1]) == Some(seg) && ParseInt(f[2]) == Some(id)
    ensures ParseLine(line, parseUri) == Parsed(BlockLine(u, seg, id, f[3] == "d"))
  {
  }

  /** A line written by `convertLine` parses back to the same block, when the URI text has no '#'. */
  lemma LineRoundTrip(b: BlockLine, parseUri: string -> Option<FreenetUri>)
    requires parseUri(Text(b.uri)) == Some(b.uri)
    requires '#' !in Text(b.uri)
    requires InInt32(b.segmentId) && InInt32(b.id)
    ensures ParseLine(ConvertLine(b), parseUri) == Parsed(b)
  {
    ConvertLineFields(b);
    ParseIntToString(b.segmentId);
    ParseIntToString(b.id);
    var f := SplitLimit(ConvertLine(b), '#', 4);
    ParseLineOfFields(ConvertLine(b), parseUri, f, b.uri, b.segmentId, b.id);
  }

  /** `loadBlockUris`' filter: non-blank lines containing '#'. */
  predicate IsBlockLine(line: string) {
    !IsBlank(line) && '#' in line
  }

  /** One line of a block-list file applied to the block map read so far. */
  function LoadStep(m: map<FreenetUri, BlockLine>, line: string, parseUri: string -> Option<FreenetUri>)
    : Result<map<FreenetUri, BlockLine>>
  {
    if !IsBlockLine(line) then Ok(m)
    else match ParseLine(line, parseUri)
      case Broken => Err(DaoFault("Error loading blocks"))
      case Rejected => Ok(m)
      case Parsed(b) => Ok(m[b.uri := b])
  }

  /** The lines of a block-list file folded into the block map; a later line for the same URI wins. */
  function LoadLines(lines: seq<string>, parseUri: string -> Option<FreenetUri>): Result<map<FreenetUri, BlockLine>> {
    if |lines| == 0 then Ok(map[])
    else
      match LoadLines(lines[..|lines| - 1], parseUri)
      case Err(e) => Err(e)
      case Ok(m) => LoadStep(m, lines[|lines| - 1], parseUri)
  }

  /** Loading one more line of a file whose first i lines loaded. */
  lemma LoadLinesNext(lines: seq<string>, parseUri: string -> Option<FreenetUri>, i: nat, m: map<FreenetUri, BlockLine>)
    requires i < |lines| && LoadLines(lines[..i], parseUri) == Ok(m)
    ensures LoadLines(lines[..i + 1], parseUri) == LoadStep(m, lines[i], parseUri)
  {
    assert lines[..i + 1][..i] == lines[..i];
  }

  /** The blocks of a record are unfetched, uninserted blocks for exactly the lines of `m`. */
  ghost predicate Mirrors(blocks: map<FreenetUri, Block>, m: map<FreenetUri, BlockLine>)
    reads blocks.Values
  {
    blocks.Keys == m.Keys &&
    forall k :: k in blocks ==> LineOf(blocks[k]) == m[k] && !blocks[k].fetchDone && !blocks[k].insertDone
  }

  /** A new unfetched, uninserted block for line b keeps the block map mirroring the lines. */
  lemma MirrorsPut(blocks: map<FreenetUri, Block>, m: map<FreenetUri, BlockLine>, block: Block, b: BlockLine)
    requires Mirrors(blocks, m) && LineOf(block) == b && !block.fetchDone && !block.insertDone
    ensures Mirrors(blocks[b.uri := block], m[b.uri := b])
  {
  }

  // ----- the store -----

  /** The properties after `create` stored `u` under `id`. */
  function CreatedProps(prop: map<string, string>, id: int, u: FreenetUri): map<string, string> {
    prop[PerIdName(Uri, id) := Text(u)]
        [PerIdName(Blocks, id) := IntToString(-1)]
        [PerIdName(Success, id) := ""]
        [PerIdName(Segment, id) := IntToString(-1)]
        [Name(Ids) := JavaString(Lookup(prop, Name(Ids))) + IntToString(id) + ","]
  }

  /** The properties after `update` wrote the record. */
  function UpdatedProps(prop: map<string, string>, id: int, u: FreenetUri, blockCount: int,
                        successSegments: Option<string>, success: Option<string>,
                        history: Option<string>, segment: int): map<string, string>
  {
    var p1 := prop[PerIdName(Uri, id) := Text(u)][PerIdName(Blocks, id) := IntToString(blockCount)];
    var p2 := if successSegments.None? then p1 else p1[PerIdName(SuccessSegments, id) := successSegments.value];
    var p3 := if success.None? then p2 else p2[PerIdName(Success, id) := success.value];
    var p4 := if history.None? then p3 else p3[PerIdName(History, id) := history.value];
    p4[PerIdName(Segment, id) := IntToString(segment)]
  }

  /** The id list after `delete` rewrote it. */
  function DeletedIdsText(idsText: Option<string>, id: int): string {
    var s := "," + JavaString(idsText);
    ReplaceKeepsLeadingComma(s, id);
    ReplaceAll(s, IdPattern(id), ",")[1..]
  }

  /** The properties after `delete` removed `id`. */
  function DeletedProps(prop: map<string, string>, id: int): map<string, string> {
    (prop - {PerIdName(Uri, id)} - {PerIdName(Blocks, id)} - {PerIdName(Success, id)}
          - {PerIdName(SuccessSegments, id)} - {PerIdName(Segment, id)} - {PerIdName(History, id)})
      [Name(Ids) := DeletedIdsText(Lookup(prop, Name(Ids)), id)]
  }

  /** The stored URI of `id` equals `text` ignoring case; a missing URI equals nothing. */
  predicate UriMatchesIn(prop: map<string, string>, text: string, id: int) {
    var stored := Lookup(prop, PerIdName(Uri, id));
    stored.Some? && EqualsIgnoreCase(text, stored.value)
  }

  /** `existUri(uri)` over a property map: some listed id's URI equals the URI's text ignoring case. */
  function UriStoredIn(prop: map<string, string>, u: FreenetUri): (r: Result<bool>)
    ensures r.Ok? <==> UriIds(Lookup(prop, Name(Ids))).Ok?
    ensures r.Err? ==> r.fault == ID_PARSE_FAULT
    ensures r.Ok? ==> (r.value <==> exists k ::
      0 <= k < |UriIds(Lookup(prop, Name(Ids))).value| &&
      UriMatchesIn(prop, Text(u), UriIds(Lookup(prop, Name(Ids))).value[k]))
  {
    match UriIds(Lookup(prop, Name(Ids)))
    case Err(e) => Err(e)
    case Ok(ids) => Ok(exists k :: 0 <= k < |ids| && UriMatchesIn(prop, Text(u), ids[k]))
  }

  /** The fields of a record that `update` writes. */
  datatype Record = Record(uriId: int, uri: Option<FreenetUri>, blockCount: int, blocksSize: nat,
                           successSegments: Option<string>, success: Option<string>,
                           history: Option<string>, segment: int)

  function RecordOf(v: UriValue): Record
    reads v
  {
    Record(v.uriId, v.uri, v.blockCount, |v.blocks|, v.successSegments, v.success, v.history, v.segment)
  }

  /**
   * What `update` answers and leaves in the property map: a record whose URI is null or not
   * stored is refused and nothing is written (there is no upsert).
   */
  function UpdateOutcome(prop: map<string, string>, rec: Record): (r: (Status, map<string, string>))
    ensures r.0.Failed? ==> r.1 == prop
    ensures r.0 == Done <==> rec.uri.Some? && UriStoredIn(prop, rec.uri.value) == Ok(true)
    ensures r.0.Failed? ==> r.0.IsDaoFault()
  {
    if rec.uri.None? then (Failed(DaoFault("The freenetUri need to be not null!")), prop)
    else match UriStoredIn(prop, rec.uri.value)
      case Err(e) => (Failed(e), prop)
      case Ok(false) => (Failed(DaoFault("The uri doesnt exist")), prop)
      case Ok(true) =>
        (Done, UpdatedProps(prop, rec.uriId, rec.uri.value,
                            if rec.blocksSize > 0 then rec.blocksSize else rec.blockCount,
                            rec.successSegments, rec.success, rec.history, rec.segment))
  }

  /**
   * The record `read(id)` builds for a listed id from the property map and the id's
   * block-list file; none when the stored URI is missing or broken or the file is.
   */
  function StoredRecord(prop: map<string, string>, id: int, blockFile: Option<seq<string>>,
                        parseUri: string -> Option<FreenetUri>): (r: Option<Record>)
    ensures r.Some? ==> r.value.uriId == id && r.value.uri.Some?
    ensures r.Some? <==>
      (Lookup(prop, PerIdName(Uri, id)).Some? && parseUri(Lookup(prop, PerIdName(Uri, id)).value).Some? &&
       (blockFile.None? || LoadLines(blockFile.value, parseUri).Ok?))
  {
    var text := Lookup(prop, PerIdName(Uri, id));
    if text.None? || parseUri(text.value).None? then None
    else if blockFile.Some? && LoadLines(blockFile.value, parseUri).Err? then None
    else
      Some(Record(id, parseUri(text.value), ParseIntOrMinusOne(Lookup(prop, PerIdName(Blocks, id))),
                  if blockFile.None? then 0 else |LoadLines(blockFile.value, parseUri).value|,
                  Lookup(prop, PerIdName(SuccessSegments, id)), Lookup(prop, PerIdName(Success, id)),
                  Lookup(prop, PerIdName(History, id)), ParseIntOrMinusOne(Lookup(prop, PerIdName(Segment, id)))))
  }

  /** `map(read).filter(x -> x != null)` over a list of ids: the records read, in list order. */
  function Readable(ids: seq<int>, read: int -> Option<Record>): (r: seq<Record>)
    ensures |r| <= |ids|
  {
    if |ids| == 0 then []
    else
      var rest := Readable(ids[..|ids| - 1], read);
      match read(ids[|ids| - 1])
      case None => rest
      case Some(rec) => rest + [rec]
  }

  /** The filter keeps exactly the records that some id of the list reads to. */
  lemma {:induction false} ReadableAreTheRead(ids: seq<int>, read: int -> Option<Record>, rec: Record)
    ensures rec in Readable(ids, read) <==> exists j :: 0 <= j < |ids| && read(ids[j]) == Some(rec)
  {
    if |ids| > 0 {
      var n := |ids| - 1;
      ReadableAreTheRead(ids[..n], read, rec);
      if rec in Readable(ids, read) && rec in Readable(ids[..n], read) {
        var j :| 0 <= j < n && read(ids[..n][j]) == Some(rec);
        assert ids[..n][j] == ids[j];
      }
      if exists j :: 0 <= j < |ids| && read(ids[j]) == Some(rec) {
        var j :| 0 <= j < |ids| && read(ids[j]) == Some(rec);
        if j < n {
          assert ids[..n][j] == ids[j];
        }
      }
    }
  }

  /** `readUnchecked` over a property map and the block-list files of the ids. */
  function StoredReader(prop: map<string, string>, blockFiles: int -> Option<seq<string>>,
                        parseUri: string -> Option<FreenetUri>): int -> Option<Record>
  {
    id => StoredRecord(prop, id, blockFiles(id), parseUri)
  }

  class PropertiesUriValuesDao {
    const plugin: Plugin

    constructor (plugin: Plugin)
      ensures this.plugin == plugin
    {
      this.plugin := plugin;
    }

    /** `getProp(key, id)`: the property "<key>_<id>". */
    function GetPropId(key: Option<PropertiesKey>, id: int): (v: Option<string>)
      reads plugin.base
      ensures key.None? ==> v.None?
    {
      if key.None? then None else Lookup(plugin.base.prop, PerIdName(key.value, id))
    }

    function GetIntPropId(key: Option<PropertiesKey>, id: int): int
      reads plugin.base
    {
      ParseIntOrMinusOne(GetPropId(key, id))
    }

    /** `setProp(key, id, value)`: a null key or value changes nothing. */
    method SetPropId(key: Option<PropertiesKey>, id: int, value: Option<string>)
      modifies plugin.base`prop
      ensures key.None? || value.None? ==> plugin.base.prop == old(plugin.base.prop)
      ensures key.Some? && value.Some? ==>
        plugin.base.prop == old(plugin.base.prop)[PerIdName(key.value, id) := value.value]
    {
      if key.None? || value.None? {
        return;
      }
      plugin.base.prop := plugin.base.prop[PerIdName(key.value, id) := value.value];
    }

    method SetIntPropId(key: Option<PropertiesKey>, id: int, value: int)
      modifies plugin.base`prop
      ensures key.None? ==> plugin.base.prop == old(plugin.base.prop)
      ensures key.Some? ==> plugin.base.prop == old(plugin.base.prop)[PerIdName(key.value, id) := IntToString(value)]
      ensures key.Some? && InInt32(value) ==> GetIntPropId(key, id) == value
    {
      SetPropId(key, id, Some(IntToString(value)));
      if key.Some? && InInt32(value) {
        ParseIntOfIntText(value);
      }
    }

    method RemovePropId(key: Option<PropertiesKey>, id: int)
      modifies plugin.base`prop
      ensures key.None? ==> plugin.base.prop == old(plugin.base.prop)
      ensures key.Some? ==> plugin.base.prop == old(plugin.base.prop) - {PerIdName(key.value, id)}
    {
      if key.None? {
        return;
      }
      plugin.base.prop := plugin.base.prop - {PerIdName(key.value, id)};
    }

    function StoredIdsText(): Option<string>
      reads plugin.base
    {
      Lookup(plugin.base.prop, Name(Ids))
    }

    function AllUriIds(): Result<seq<int>>
      reads plugin.base
    {
      UriIds(StoredIdsText())
    }

    /**
     * `getAll()`: an unparsable id list is an error; otherwise the records of the listed ids
     * whose read succeeds, in list order (`readUnchecked` turns a failed read into null and
     * the filter drops it).
     */
    function GetAll(blockFiles: int -> Option<seq<string>>, parseUri: string -> Option<FreenetUri>)
      : (r: Result<seq<Record>>)
      reads plugin.base
      ensures r.Err? <==> AllUriIds().Err?
      ensures r.Err? ==> r.fault == ID_PARSE_FAULT
      ensures r.Ok? ==> |r.value| <= |AllUriIds().value|
    {
      match AllUriIds()
      case Err(e) => Err(e)
      case Ok(ids) => Ok(Readable(ids, StoredReader(plugin.base.prop, blockFiles, parseUri)))
    }

    /** `existUriId(id)`. */
    function ExistUriId(id: int): (r: Result<bool>)
      reads plugin.base
      ensures r.Ok? <==> AllUriIds().Ok?
      ensures r.Ok? ==> (r.value <==> id in AllUriIds().value)
    {
      match AllUriIds()
      case Err(e) => Err(e)
      case Ok(ids) => Ok(id in ids)
    }

    /** `existUri(uri)`. */
    function ExistUri(u: FreenetUri): Result<bool>
      reads plugin.base
    {
      UriStoredIn(plugin.base.prop, u)
    }

    /** `exist(uri)`: a null URI is an error. */
    function Exist(u: Option<FreenetUri>): (r: Result<bool>)
      reads plugin.base
      ensures u.None? ==> r.Err? && r.fault.DaoFault?
      ensures u.Some? ==> r == ExistUri(u.value)
    {
      if u.None? then Err(DaoFault("The freenetUri need to be not null!")) else ExistUri(u.value)
    }

    /**
     * `create(uri)`: refuses a null URI and one already stored (ignoring case); otherwise
     * writes the new record's URI, block count, success and cursor under the next free id,
     * appends "id," to the id list and asks for a save.
     */
    method Create(u: Option<FreenetUri>, now: int) returns (r: Result<UriValue>)
      modifies plugin.base`prop, plugin`propSavingTimestamp, plugin`savedProps
      ensures u.None? ==> r.Err? && r.fault.DaoFault?
      ensures u.Some? && old(ExistUri(u.value)) != Ok(false) ==> r.Err?
      ensures r.Err? ==> (plugin.base.prop == old(plugin.base.prop) &&
        plugin.propSavingTimestamp == old(plugin.propSavingTimestamp) && plugin.savedProps == old(plugin.savedProps))
      ensures r.Ok? ==> plugin.SavedSince(old(plugin.propSavingTimestamp), old(plugin.savedProps), now)
      ensures u.Some? && old(ExistUri(u.value)) == Ok(false) ==>
        r.Ok? && fresh(r.value) &&
        r.value.uriId == NewUriId(old(AllUriIds()).value) && r.value.uri == u &&
        r.value.blockCount == -1 && r.value.blocks == map[] && r.value.successSegments == None &&
        r.value.success == Some("") && r.value.history == Some("") && r.value.segment == -1 &&
        plugin.base.prop == CreatedProps(old(plugin.base.prop), r.value.uriId, u.value)
    {
      if u.None? {
        return Err(DaoFault("The uri need to be not null!"));
      }
      var present := ExistUri(u.value);
      if present.Err? {
        return Err(present.fault);
      }
      if present.value {
        return Err(DaoFault("The uri is already saved"));
      }
      var id := NewUriId(AllUriIds().value);
      var v := new UriValue.WithUri(id, u);
      StoreNewRecord(id, u.value);
      var _ := plugin.SaveProp(false, now);
      return Ok(v);
    }

    /** The writes of `create`: the new record's properties first, then the extended id list. */
    method StoreNewRecord(id: int, u: FreenetUri)
      modifies plugin.base`prop
      ensures plugin.base.prop == CreatedProps(old(plugin.base.prop), id, u)
    {
      ghost var before := plugin.base.prop;
      SetPropId(Some(Uri), id, Some(Text(u)));
      SetIntPropId(Some(Blocks), id, -1);
      SetPropId(Some(Success), id, Some(""));
      SetIntPropId(Some(Segment), id, -1);
      PerIdNameNotAKey(Uri, id, Ids);
      PerIdNameNotAKey(Blocks, id, Ids);
      PerIdNameNotAKey(Success, id, Ids);
      PerIdNameNotAKey(Segment, id, Ids);
      assert plugin.base.GetProp(Some(Ids)) == Lookup(before, Name(Ids));
      plugin.base.SetProp(Some(Ids), Some(JavaString(plugin.base.GetProp(Some(Ids))) + IntToString(id) + ","));
    }

    /**
     * `read(id)`: refuses an id not in the list; builds the record from the per-id properties,
     * with the blocks of the block-list file (absent when there is no file).
     */
    method Read(id: int, blockFile: Option<seq<string>>, parseUri: string -> Option<FreenetUri>)
      returns (r: Result<UriValue>)
      ensures ExistUriId(id) != Ok(true) ==> r.Err?
      ensures ExistUriId(id) == Ok(true) && GetPropId(Some(Uri), id).None? ==> r.Err?
      ensures (ExistUriId(id) == Ok(true) && GetPropId(Some(Uri), id).Some? &&
        parseUri(GetPropId(Some(Uri), id).value).None?) ==> r.Err?
      ensures blockFile.Some? && LoadLines(blockFile.value, parseUri).Err? ==> r.Err?
      ensures (ExistUriId(id) == Ok(true) && GetPropId(Some(Uri), id).Some? &&
        parseUri(GetPropId(Some(Uri), id).value).Some? &&
        (blockFile.None? || LoadLines(blockFile.value, parseUri).Ok?)) ==> r.Ok?
      ensures r.Ok? <==> ExistUriId(id) == Ok(true) && StoredRecord(plugin.base.prop, id, blockFile, parseUri).Some?
      ensures r.Ok? ==> StoredRecord(plugin.base.prop, id, blockFile, parseUri) == Some(RecordOf(r.value))
      ensures r.Ok? ==>
        var v := r.value;
        fresh(v) && v.uriId == id &&
        GetPropId(Some(Uri), id).Some? && v.uri == parseUri(GetPropId(Some(Uri), id).value) && v.uri.Some? &&
        v.blockCount == GetIntPropId(Some(Blocks), id) &&
        v.successSegments == GetPropId(Some(SuccessSegments), id) &&
        v.success == GetPropId(Some(Success), id) &&
        v.history == GetPropId(Some(History), id) &&
        v.segment == GetIntPropId(Some(Segment), id)
      ensures r.Ok? ==>
        var loaded := if blockFile.None? then Ok(map[]) else LoadLines(blockFile.value, parseUri);
        loaded.Ok? && Mirrors(r.value.blocks, loaded.value) &&
        forall k :: k in r.value.blocks ==> fresh(r.value.blocks[k])
    {
      var known := ExistUriId(id);
      if known != Ok(true) {
        return Err(DaoFault("The uriId doesnt exist"));
      }
      var text := GetPropId(Some(Uri), id);
      if text.None? || parseUri(text.value).None? {
        return Err(DaoFault("The uri seams broken"));
      }
      r := BuildRecord(id, parseUri(text.value), GetIntPropId(Some(Blocks), id), blockFile, parseUri,
        GetPropId(Some(SuccessSegments), id), GetPropId(Some(Success), id), GetPropId(Some(History), id),
        GetIntPropId(Some(Segment), id));
    }

    /** The body of `read` once the id is known: a new record with the stored fields and the file's blocks. */
    static method BuildRecord(id: int, uri: Option<FreenetUri>, blockCount: int, blockFile: Option<seq<string>>,
                              parseUri: string -> Option<FreenetUri>, successSegments: Option<string>,
                              success: Option<string>, history: Option<string>, segment: int)
      returns (r: Result<UriValue>)
      ensures blockFile.Some? && LoadLines(blockFile.value, parseUri).Err? ==> r.Err?
      ensures blockFile.None? || LoadLines(blockFile.value, parseUri).Ok? ==> r.Ok?
      ensures r.Ok? ==>
        var v := r.value;
        fresh(v) && v.uriId == id && v.uri == uri && v.blockCount == blockCount &&
        v.successSegments == successSegments && v.success == success && v.history == history &&
        v.segment == segment
      ensures r.Ok? ==>
        var loaded := if blockFile.None? then Ok(map[]) else LoadLines(blockFile.value, parseUri);
        loaded.Ok? && Mirrors(r.value.blocks, loaded.value) &&
        forall k :: k in r.value.blocks ==> fresh(r.value.blocks[k])
    {
      var v := new UriValue(id);
      v.SetUri(uri);
      v.SetBlockCount(blockCount);
      if blockFile.Some? {
        var ok := LoadBlockUris(v, blockFile.value, parseUri);
        if !ok {
          return Err(DaoFault("Error loading blocks"));
        }
      }
      SetProgress(v, successSegments, success, history, segment);
      return Ok(v);
    }

    /** The last four setters of `read`: the record's progress fields. */
    static method SetProgress(v: UriValue, successSegments: Option<string>, success: Option<string>,
                              history: Option<string>, segment: int)
      modifies v`successSegments, v`success, v`history, v`segment
      ensures v.successSegments == successSegments && v.success == success && v.history == history
      ensures v.segment == segment
    {
      v.SetSuccessSegments(successSegments);
      v.SetSuccess(success);
      v.SetHistory(history);
      v.SetSegment(segment);
    }

    /** `loadBlockUris`: puts a new block for every accepted line, in file order. */
    static method LoadBlockUris(v: UriValue, lines: seq<string>, parseUri: string -> Option<FreenetUri>)
      returns (ok: bool)
      requires v.blocks == map[]
      modifies v`blocks
      ensures ok <==> LoadLines(lines, parseUri).Ok?
      ensures ok ==> Mirrors(v.blocks, LoadLines(lines, parseUri).value)
      ensures forall k :: k in v.blocks ==> fresh(v.blocks[k])
    {
      var i := 0;
      ghost var m: map<FreenetUri, BlockLine> := map[];
      while i < |lines|
        invariant 0 <= i <= |lines|
        invariant LoadLines(lines[..i], parseUri) == Ok(m)
        invariant Mirrors(v.blocks, m)
        invariant forall k :: k in v.blocks ==> fresh(v.blocks[k])
      {
        LoadLinesNext(lines, parseUri, i, m);
        var broken := LoadLine(v, lines[i], parseUri, m);
        if broken {
          LoadLinesErrStays(lines, parseUri, i + 1);
          return false;
        }
        m := LoadStep(m, lines[i], parseUri).value;
        i := i + 1;
      }
      assert lines[..i] == lines;
      return true;
    }

    /** One line of `loadBlockUris`: a block line that parses becomes a new block under its URI. */
    static method LoadLine(v: UriValue, line: string, parseUri: string -> Option<FreenetUri>, ghost m: map<FreenetUri, BlockLine>)
      returns (broken: bool)
      requires Mirrors(v.blocks, m)
      modifies v`blocks
      ensures broken <==> LoadStep(m, line, parseUri).Err?
      ensures !broken ==> Mirrors(v.blocks, LoadStep(m, line, parseUri).value)
      ensures broken ==> v.blocks == old(v.blocks)
      ensures forall k :: k in v.blocks ==> (k in old(v.blocks) && v.blocks[k] == old(v.blocks)[k]) || fresh(v.blocks[k])
    {
      if !IsBlockLine(line) {
        return false;
      }
      var parsed := ParseLine(line, parseUri);
      if parsed.Broken? {
        return true;
      }
      if parsed.Parsed? {
        PutLine(v, parsed.line, m);
      }
      return false;
    }

    /** A parsed line becomes a new block under its URI. */
    static method PutLine(v: UriValue, b: BlockLine, ghost m: map<FreenetUri, BlockLine>)
      requires Mirrors(v.blocks, m)
      modifies v`blocks
      ensures Mirrors(v.blocks, m[b.uri := b])
      ensures forall k :: k in v.blocks ==> (k in old(v.blocks) && v.blocks[k] == old(v.blocks)[k]) || fresh(v.blocks[k])
    {
      var block := new Block(b.uri, b.segmentId, b.id, b.isDataBlock);
      MirrorsPut(v.blocks, m, block, b);
      v.PutBlock(b.uri, block);
    }

    /**
     * `update(value)`: refuses a record whose URI is null or matches no stored URI (there is
     * no upsert); otherwise rewrites the record's properties, the block count being the
     * size of the block map when that is not empty, and skipping null strings.
     */
    method Update(v: UriValue, now: int) returns (st: Status)
      modifies plugin.base`prop, plugin`propSavingTimestamp, plugin`savedProps
      ensures v.uri.None? ==> st.IsDaoFault()
      ensures v.uri.Some? && old(ExistUri(v.uri.value)) != Ok(true) ==> st.Failed?
      ensures (st, plugin.base.prop) == UpdateOutcome(old(plugin.base.prop), RecordOf(v))
      ensures st.Failed? ==> (plugin.propSavingTimestamp == old(plugin.propSavingTimestamp) &&
        plugin.savedProps == old(plugin.savedProps))
      ensures st.Done? ==> plugin.SavedSince(old(plugin.propSavingTimestamp), old(plugin.savedProps), now)
    {
      st := UpdateRecord(RecordOf(v), now);
    }

    /** `update` on the fields it reads from the value, as a record. */
    method UpdateRecord(rec: Record, now: int) returns (st: Status)
      modifies plugin.base`prop, plugin`propSavingTimestamp, plugin`savedProps
      ensures rec.uri.None? ==> st.IsDaoFault()
      ensures rec.uri.Some? && old(ExistUri(rec.uri.value)) != Ok(true) ==> st.Failed?
      ensures (st, plugin.base.prop) == UpdateOutcome(old(plugin.base.prop), rec)
      ensures st.Failed? ==> (plugin.propSavingTimestamp == old(plugin.propSavingTimestamp) &&
        plugin.savedProps == old(plugin.savedProps))
      ensures st.Done? ==> plugin.SavedSince(old(plugin.propSavingTimestamp), old(plugin.savedProps), now)
    {
      var e := Exist(rec.uri);
      if e.Err? {
        return Failed(e.fault);
      }
      if !e.value {
        return Failed(DaoFault("The uri doesnt exist"));
      }
      WriteRecord(rec);
      var _ := plugin.SaveProp(false, now);
      return Done;
    }

    /** The writes of `update`: the record's six fields under its id, null strings skipped. */
    method WriteRecord(rec: Record)
      requires rec.uri.Some?
      modifies plugin.base`prop
      ensures plugin.base.prop == UpdatedProps(old(plugin.base.prop), rec.uriId, rec.uri.value,
        if rec.blocksSize > 0 then rec.blocksSize else rec.blockCount, rec.successSegments, rec.success,
        rec.history, rec.segment)
    {
      var id := rec.uriId;
      SetPropId(Some(Uri), id, Some(Text(rec.uri.value)));
      SetIntPropId(Some(Blocks), id, if rec.blocksSize > 0 then rec.blocksSize else rec.blockCount);
      SetPropId(Some(SuccessSegments), id, rec.successSegments);
      SetPropId(Some(Success), id, rec.success);
      SetPropId(Some(History), id, rec.history);
      SetIntPropId(Some(Segment), id, rec.segment);
    }

    /** `delete(id)`: refuses an unknown id; removes the six per-id properties and the id from the list. */
    method Delete(id: int, now: int) returns (st: Status)
      modifies plugin.base`prop, plugin`propSavingTimestamp, plugin`savedProps
      ensures old(ExistUriId(id)) != Ok(true) ==> (st.IsDaoFault() && plugin.base.prop == old(plugin.base.prop) &&
        plugin.propSavingTimestamp == old(plugin.propSavingTimestamp) && plugin.savedProps == old(plugin.savedProps))
      ensures st.Done? ==> plugin.SavedSince(old(plugin.propSavingTimestamp), old(plugin.savedProps), now)
      ensures old(ExistUriId(id)) == Ok(true) ==>
        st == Done && plugin.base.prop == DeletedProps(old(plugin.base.prop), id)
    {
      var known := ExistUriId(id);
      if known.Err? {
        return Failed(known.fault);
      }
      if !known.value {
        return Failed(DaoFault("The uriId doesnt exist"));
      }
      RemoveRecord(id);
      var _ := plugin.SaveProp(false, now);
      return Done;
    }

    /** The writes of `delete`: the six per-id properties go, then the id list is rewritten. */
    method RemoveRecord(id: int)
      modifies plugin.base`prop
      ensures plugin.base.prop == DeletedProps(old(plugin.base.prop), id)
    {
      ghost var before := plugin.base.prop;
      RemovePropId(Some(Uri), id);
      RemovePropId(Some(Blocks), id);
      RemovePropId(Some(Success), id);
      RemovePropId(Some(SuccessSegments), id);
      RemovePropId(Some(Segment), id);
      RemovePropId(Some(History), id);
      PerIdNameNotAKey(Uri, id, Ids);
      PerIdNameNotAKey(Blocks, id, Ids);
      PerIdNameNotAKey(Success, id, Ids);
      PerIdNameNotAKey(SuccessSegments, id, Ids);
      PerIdNameNotAKey(Segment, id, Ids);
      PerIdNameNotAKey(History, id, Ids);
      assert StoredIdsText() == Lookup(before, Name(Ids));
      plugin.base.SetProp(Some(Ids), Some(DeletedIdsText(StoredIdsText(), id)));
    }
  }

  /** A broken line stops the load however the file goes on. */
  lemma {:induction false} LoadLinesBrokenStays(lines: seq<string>, parseUri: string -> Option<FreenetUri>, n: nat)
    requires 0 < n <= |lines|
    requires IsBlockLine(lines[n - 1]) && ParseLine(lines[n - 1], parseUri).Broken?
    requires LoadLines(lines[..n - 1], parseUri).Ok?
    ensures LoadLines(lines, parseUri).Err?
  {
    LoadLinesErrStays(lines, parseUri, n);
  }

  lemma {:induction false} LoadLinesErrStays(lines: seq<string>, parseUri: string -> Option<FreenetUri>, n: nat)
    requires 0 < n <= |lines|
    requires LoadLines(lines[..n], parseUri).Err?
    ensures LoadLines(lines, parseUri).Err?
    decreases |lines| - n
  {
    if n < |lines| {
      assert lines[..n + 1][..n] == lines[..n];
      LoadLinesErrStays(lines, parseUri, n + 1);
    } else {
      assert lines[..n] == lines;
    }
  }

  // ----- the store's id list across create and delete -----

  /** After `create` the stored list names the new id last. */
  lemma CreateExtendsIds(ids: seq<int>, id: int)
    requires forall k :: 0 <= k < |ids| ==> InInt32(ids[k])
    requires InInt32(id)
    ensures UriIds(Some(JavaString(Some(IdsText(ids))) + IntToString(id) + ",")) == Ok(ids + [id])
  {
    var all := ids + [id];
    AppendInInt32(ids, id);
    assert JavaString(Some(IdsText(ids))) + IntToString(id) + "," == IdsText(all) by {
      IdsTextAppend(ids, id);
    }
    IdsTextRoundTrip(all);
  }

  lemma AppendInInt32(ids: seq<int>, id: int)
    requires forall k :: 0 <= k < |ids| ==> InInt32(ids[k])
    requires InInt32(id)
    ensures forall k :: 0 <= k < |ids + [id]| ==> InInt32((ids + [id])[k])
  {
    var all := ids + [id];
    forall k | 0 <= k < |all| ensures InInt32(all[k]) {
      if k < |ids| {
        assert all[k] == ids[k];
      }
    }
  }

  /** After `delete` the stored list is the old one without the id, in the same order. */
  lemma DeleteShrinksIds(ids: seq<int>, id: int)
    requires Distinct(ids)
    requires forall k :: 0 <= k < |ids| ==> InInt32(ids[k])
    ensures DeletedIdsText(Some(IdsText(ids)), id) == IdsText(Without(ids, id))
    ensures UriIds(Some(DeletedIdsText(Some(IdsText(ids)), id))) == Ok(Without(ids, id))
  {
    DeleteFromIdsText(ids, id);
    var w := Without(ids, id);
    forall k | 0 <= k < |w| ensures InInt32(w[k]) {
      var j :| 0 <= j < |ids| && ids[j] == w[k];
    }
    IdsTextRoundTrip(w);
  }

  /** The id `create` picks keeps the list free of repetitions. */
  lemma CreateKeepsDistinct(ids: seq<int>)
    requires Distinct(ids)
    ensures Distinct(ids + [NewUriId(ids)])
  {
    var all := ids + [NewUriId(ids)];
    forall i, j | 0 <= i < j < |all| ensures all[i] != all[j] {
      if j < |ids| {
        assert all[i] == ids[i] && all[j] == ids[j];
      } else {
        assert all[i] == ids[i] < NewUriId(ids) == all[j];
      }
    }
  }

  /** The per-id names `update` writes. */
  lemma UpdatedNamesDiffer(id: int, k: PropertiesKey, other: int)
    requires k != Uri || other != id
    ensures PerIdName(k, id) != PerIdName(Uri, other) && PerIdName(k, id) != Name(Ids)
  {
    PerIdNameNotAKey(k, id, Ids);
    if PerIdName(k, id) == PerIdName(Uri, other) {
      PerIdNameInjective(k, id, Uri, other);
    }
  }

  /**
   * `update` leaves the id list alone, stores the record's URI text under its own id and
   * leaves the URI of every other id as it was.
   */
  lemma UpdatedPropsLookups(prop: map<string, string>, id: int, u: FreenetUri, blockCount: int,
                            successSegments: Option<string>, success: Option<string>,
                            history: Option<string>, segment: int, other: int)
    ensures var after := UpdatedProps(prop, id, u, blockCount, successSegments, success, history, segment);
      Lookup(after, Name(Ids)) == Lookup(prop, Name(Ids)) &&
      Lookup(after, PerIdName(Uri, other)) == (if other == id then Some(Text(u)) else Lookup(prop, PerIdName(Uri, other)))
  {
    UpdatedIdsLookup(prop, id, u, blockCount, successSegments, success, history, segment);
    UpdatedUriLookup(prop, id, u, blockCount, successSegments, success, history, segment, other);
  }

  /** `update` leaves the id list alone. */
  lemma UpdatedIdsLookup(prop: map<string, string>, id: int, u: FreenetUri, blockCount: int,
                         successSegments: Option<string>, success: Option<string>,
                         history: Option<string>, segment: int)
    ensures var after := UpdatedProps(prop, id, u, blockCount, successSegments, success, history, segment);
      Lookup(after, Name(Ids)) == Lookup(prop, Name(Ids))
  {
    PerIdNameNotAKey(Uri, id, Ids);
    PerIdNameNotAKey(Blocks, id, Ids);
    PerIdNameNotAKey(SuccessSegments, id, Ids);
    PerIdNameNotAKey(Success, id, Ids);
    PerIdNameNotAKey(History, id, Ids);
    PerIdNameNotAKey(Segment, id, Ids);
  }

  /** `update` writes the URI of its own id and no other. */
  lemma UpdatedUriLookup(prop: map<string, string>, id: int, u: FreenetUri, blockCount: int,
                         successSegments: Option<string>, success: Option<string>,
                         history: Option<string>, segment: int, other: int)
    ensures var after := UpdatedProps(prop, id, u, blockCount, successSegments, success, history, segment);
      Lookup(after, PerIdName(Uri, other)) == (if other == id then Some(Text(u)) else Lookup(prop, PerIdName(Uri, other)))
  {
    if other == id {
      UpdatedOwnUri(prop, id, u, blockCount, successSegments, success, history, segment);
    } else {
      UpdatedOtherUri(prop, id, u, blockCount, successSegments, success, history, segment, other);
    }
  }

  /** The URI of the record's own id is the one written. */
  lemma UpdatedOwnUri(prop: map<string, string>, id: int, u: FreenetUri, blockCount: int,
                      successSegments: Option<string>, success: Option<string>,
                      history: Option<string>, segment: int)
    ensures var after := UpdatedProps(prop, id, u, blockCount, successSegments, success, history, segment);
      Lookup(after, PerIdName(Uri, id)) == Some(Text(u))
  {
    UpdatedNamesDiffer(id, Blocks, id);
    UpdatedNamesDiffer(id, SuccessSegments, id);
    UpdatedNamesDiffer(id, Success, id);
    UpdatedNamesDiffer(id, History, id);
    UpdatedNamesDiffer(id, Segment, id);
  }

  /** The URI of any other id is left as it was. */
  lemma UpdatedOtherUri(prop: map<string, string>, id: int, u: FreenetUri, blockCount: int,
                        successSegments: Option<string>, success: Option<string>,
                        history: Option<string>, segment: int, other: int)
    requires other != id
    ensures var after := UpdatedProps(prop, id, u, blockCount, successSegments, success, history, segment);
      Lookup(after, PerIdName(Uri, other)) == Lookup(prop, PerIdName(Uri, other))
  {
    UpdatedNamesDiffer(id, Uri, other);
    UpdatedNamesDiffer(id, Blocks, other);
    UpdatedNamesDiffer(id, SuccessSegments, other);
    UpdatedNamesDiffer(id, Success, other);
    UpdatedNamesDiffer(id, History, other);
    UpdatedNamesDiffer(id, Segment, other);
  }

  /** A record `update` accepted is still found afterwards, so the next update of it is accepted too. */
  lemma UpdateKeepsRecordFound(prop: map<string, string>, rec: Record)
    requires UpdateOutcome(prop, rec).0 == Done
    ensures UriStoredIn(UpdateOutcome(prop, rec).1, rec.uri.value) == Ok(true)
  {
    var u := rec.uri.value;
    var after := UpdateOutcome(prop, rec).1;
    var ids := UriIds(Lookup(prop, Name(Ids))).value;
    var k :| 0 <= k < |ids| && UriMatchesIn(prop, Text(u), ids[k]);
    UpdatedPropsLookups(prop, rec.uriId, u, if rec.blocksSize > 0 then rec.blocksSize else rec.blockCount,
                        rec.successSegments, rec.success, rec.history, rec.segment, ids[k]);
    StillStored(prop, after, u, ids, k);
  }

  /** A listed id whose URI still matches after a write that kept the id list keeps the URI found. */
  lemma StillStored(prop: map<string, string>, after: map<string, string>, u: FreenetUri, ids: seq<int>, k: int)
    requires UriIds(Lookup(prop, Name(Ids))) == Ok(ids) && 0 <= k < |ids|
    requires Lookup(after, Name(Ids)) == Lookup(prop, Name(Ids))
    requires UriMatchesIn(prop, Text(u), ids[k])
    requires Lookup(after, PerIdName(Uri, ids[k])) == Lookup(prop, PerIdName(Uri, ids[k])) ||
      Lookup(after, PerIdName(Uri, ids[k])) == Some(Text(u))
    ensures UriStoredIn(after, u) == Ok(true)
  {
    assert UriMatchesIn(after, Text(u), ids[k]);
  }
}
