/**
 * The SpikeGLX-metadata to Kilosort-channel-map helpers: the `key=value`
 * reader, the channel-count reader, the `snsGeomMap` tokeniser and the
 * channel-map builder, up to the dictionary that would be written to a
 * `.mat` file.
 */
module KsHelpers {
  import opened Results
  import opened Strings
  import opened Numbers

  // ---------------------------------------------------------------------
  // readMeta
  // ---------------------------------------------------------------------

  /** The dictionary key for a left-hand side: one leading `~` is removed. */
  function CanonicalKey(raw: string): (key: string)
    requires |raw| > 0
    ensures raw == (if raw[0] == '~' then "~" else "") + key
  {
    if raw[0] == '~' then raw[1..] else raw
  }

  /**
   * One metadata line: split on every `=`, take field 0 as the key and
   * field 1 as the value. `csList[0][0]` fails on an empty key and
   * `csList[1]` fails when there is no `=`.
   */
  function ParseLine(line: string): (r: Result<(string, string)>)
    ensures r.Err? ==> r == Err(IndexError)
    ensures r.Ok? ==> |line| > 0 && line[0] != '='
  {
    var csList := Split(line, '=');
    if |csList[0]| == 0 then Err(IndexError)
    else if |csList| < 2 then Err(IndexError)
    else Ok((CanonicalKey(csList[0]), csList[1]))
  }

  /** A line `ParseLine` accepts: it has an `=`, and not as its first character. */
  predicate WellFormedLine(line: string) {
    |line| > 0 && line[0] != '=' && '=' in line
  }

  /** The key a line stores, or "" for a line that is not well formed. */
  function LineKey(line: string): string {
    match ParseLine(line)
    case Ok(kv) => kv.0
    case Err(_) => ""
  }

  /** The value a line stores, or "" for a line that is not well formed. */
  function LineValue(line: string): string {
    match ParseLine(line)
    case Ok(kv) => kv.1
    case Err(_) => ""
  }

  /** The dictionary `readMeta` builds from the lines of an existing file, line by line. */
  function MetaOf(lines: seq<string>): (r: Result<map<string, string>>)
    ensures lines == [] ==> r == Ok(map[])
    ensures r.Err? ==> r == Err(IndexError)
  {
    if lines == [] then Ok(map[])
    else
      var m :- MetaOf(lines[..|lines| - 1]);
      var kv :- ParseLine(lines[|lines| - 1]);
      Ok(m[kv.0 := kv.1])
  }

  /**
   * `readMeta`: the file's lines are given as `lines`, and `fileExists`
   * stands for `metaPath.exists()`.
   */
  method ReadMeta(fileExists: bool, lines: seq<string>) returns (r: Result<map<string, string>>)
    ensures !fileExists ==> r == Ok(map[])
    ensures fileExists ==> r == MetaOf(lines)
  {
    var metaDict: map<string, string> := map[];
    if fileExists {
      for i := 0 to |lines|
        invariant MetaOf(lines[..i]) == Ok(metaDict)
      {
        assert lines[..i + 1][..i] == lines[..i];
        var csList := Split(lines[i], '=');
        if |csList[0]| == 0 {
          MetaErrorPersists(lines, i + 1);
          return Err(IndexError);
        }
        var currKey := if csList[0][0] == '~' then csList[0][1..] else csList[0];
        if |csList| < 2 {
          MetaErrorPersists(lines, i + 1);
          return Err(IndexError);
        }
        metaDict := metaDict[currKey := csList[1]];
      }
      assert lines[..|lines|] == lines;
    }
    r := Ok(metaDict);
  }

  /** Once a line fails, the whole file fails with that error. */
  lemma {:induction false} MetaErrorPersists(lines: seq<string>, i: nat)
    requires i <= |lines| && MetaOf(lines[..i]).Err?
    ensures MetaOf(lines) == MetaOf(lines[..i])
    decreases |lines|
  {
    if i == |lines| {
      assert lines[..i] == lines;
    } else {
      var init := lines[..|lines| - 1];
      assert init[..i] == lines[..i];
      MetaErrorPersists(init, i);
    }
  }

  /**
   * The key is the text before the first `=`, with one leading `~`
   * removed; the value is the text between the first and the second `=`.
   */
  lemma ParseLineShape(raw: string, value: string, tail: string)
    requires '=' !in raw && '=' !in value
    requires tail == [] || tail[0] == '='
    ensures raw == [] ==> ParseLine(raw + "=" + value + tail) == Err(IndexError)
    ensures raw != [] && raw[0] == '~' ==> ParseLine(raw + "=" + value + tail) == Ok((raw[1..], value))
    ensures raw != [] && raw[0] != '~' ==> ParseLine(raw + "=" + value + tail) == Ok((raw, value))
  {
    assert raw + "=" + value + tail == raw + ['='] + (value + tail);
    SplitAtFirst(raw, '=', value + tail);
    if tail == [] {
      assert value + tail == value;
      SplitNoSeparator(value, '=');
    } else {
      assert value + tail == value + ['='] + tail[1..];
      SplitAtFirst(value, '=', tail[1..]);
    }
  }

  /** A line without `=` (the empty line among them) is an error. */
  lemma ParseLineWithoutEquals(line: string)
    requires '=' !in line
    ensures ParseLine(line) == Err(IndexError)
  {
    SplitNoSeparator(line, '=');
  }

  /** Exactly the well-formed lines parse. */
  lemma ParseLineOk(line: string)
    ensures ParseLine(line).Ok? <==> WellFormedLine(line)
  {
    SplitFirstPiece(line, '=');
  }

  /** A file parses exactly when every one of its lines is well formed. */
  lemma {:induction false} MetaOkIff(lines: seq<string>)
    ensures MetaOf(lines).Ok? <==> forall i :: 0 <= i < |lines| ==> WellFormedLine(lines[i])
  {
    if lines != [] {
      var init := lines[..|lines| - 1];
      MetaOkIff(init);
      ParseLineOk(lines[|lines| - 1]);
      assert forall i :: 0 <= i < |init| ==> init[i] == lines[i];
    }
  }

  /** The dictionary of a file is that of all but its last line, updated by the last line. */
  lemma MetaLast(lines: seq<string>)
    requires lines != [] && MetaOf(lines).Ok?
    ensures MetaOf(lines[..|lines| - 1]).Ok? && ParseLine(lines[|lines| - 1]).Ok?
    ensures MetaOf(lines).value ==
      MetaOf(lines[..|lines| - 1]).value[LineKey(lines[|lines| - 1]) := LineValue(lines[|lines| - 1])]
  {
  }

  /** The keys of the dictionary are exactly the keys of the lines. */
  lemma {:induction false} MetaKeys(lines: seq<string>, m: map<string, string>)
    requires MetaOf(lines) == Ok(m)
    ensures forall i :: 0 <= i < |lines| ==> LineKey(lines[i]) in m
    ensures forall k :: k in m ==> exists i :: 0 <= i < |lines| && LineKey(lines[i]) == k
  {
    hide *;
    if lines != [] {
      var init := lines[..|lines| - 1];
      var last := lines[|lines| - 1];
      MetaLast(lines);
      var m0 := MetaOf(init).value;
      MetaKeys(init, m0);
      assert forall i :: 0 <= i < |init| ==> init[i] == lines[i];
      forall k | k in m
        ensures exists i :: 0 <= i < |lines| && LineKey(lines[i]) == k
      {
        if k == LineKey(last) {
          assert LineKey(lines[|lines| - 1]) == k;
        } else {
          assert k in m0;
          var i :| 0 <= i < |init| && LineKey(init[i]) == k;
          assert LineKey(lines[i]) == k;
        }
      }
    }
  }

  /** Last write wins: a key's value is the value of the last line with that key. */
  lemma {:induction false} LastWriteWins(lines: seq<string>, m: map<string, string>, i: nat)
    requires MetaOf(lines) == Ok(m)
    requires i < |lines|
    requires forall j :: i < j < |lines| ==> LineKey(lines[j]) != LineKey(lines[i])
    ensures LineKey(lines[i]) in m && m[LineKey(lines[i])] == LineValue(lines[i])
  {
    var init := lines[..|lines| - 1];
    MetaLast(lines);
    if i < |lines| - 1 {
      assert init[i] == lines[i];
      assert forall j :: i < j < |init| ==> init[j] == lines[j];
      LastWriteWins(init, MetaOf(init).value, i);
    }
  }

  // ---------------------------------------------------------------------
  // Typed fields
  // ---------------------------------------------------------------------

  /**
   * `int(fields[i])`: IndexError past the end of the list, ValueError on a
   * text that is not an integer. Walks the list one field at a time.
   */
  function IntField(fields: seq<string>, i: nat): (r: Result<int>)
    ensures |fields| <= i ==> r == Err(IndexError)
    ensures i < |fields| && r.Err? ==> r == Err(ParseError(fields[i]))
  {
    if |fields| == 0 then Err(IndexError)
    else if i > 0 then IntField(fields[1..], i - 1)
    else match ParseInt(fields[0])
      case None => Err(ParseError(fields[0]))
      case Some(n) => Ok(n)
  }

  /** `float(fields[i])`, in the same way. */
  function RealField(fields: seq<string>, i: nat): (r: Result<real>)
    ensures |fields| <= i ==> r == Err(IndexError)
    ensures i < |fields| && r.Err? ==> r == Err(ParseError(fields[i]))
  {
    if |fields| == 0 then Err(IndexError)
    else if i > 0 then RealField(fields[1..], i - 1)
    else match ParseReal(fields[0])
      case None => Err(ParseError(fields[0]))
      case Some(v) => Ok(v)
  }

  /** Field `i` is an integer exactly when it exists and `int()` accepts it; otherwise the exception says which. */
  lemma {:induction false} IntFieldAt(fields: seq<string>, i: nat)
    ensures IntField(fields, i).Ok? <==> i < |fields| && ParseInt(fields[i]).Some?
    ensures IntField(fields, i).Ok? ==> ParseInt(fields[i]) == Some(IntField(fields, i).value)
    ensures i >= |fields| ==> IntField(fields, i) == Err(IndexError)
    ensures i < |fields| && ParseInt(fields[i]).None? ==> IntField(fields, i) == Err(ParseError(fields[i]))
  {
    if |fields| > 0 && i > 0 {
      IntFieldAt(fields[1..], i - 1);
    }
  }

  /** Field `i` is a number exactly when it exists and `float()` accepts it; otherwise the exception says which. */
  lemma {:induction false} RealFieldAt(fields: seq<string>, i: nat)
    ensures RealField(fields, i).Ok? <==> i < |fields| && ParseReal(fields[i]).Some?
    ensures RealField(fields, i).Ok? ==> ParseReal(fields[i]) == Some(RealField(fields, i).value)
    ensures i >= |fields| ==> RealField(fields, i) == Err(IndexError)
    ensures i < |fields| && ParseReal(fields[i]).None? ==> RealField(fields, i) == Err(ParseError(fields[i]))
  {
    if |fields| > 0 && i > 0 {
      RealFieldAt(fields[1..], i - 1);
    }
  }

  // ---------------------------------------------------------------------
  // ChannelCountsIM
  // ---------------------------------------------------------------------

  const ApLfSyKey: string := "snsApLfSy"

  /** `ChannelCountsIM`: comma fields 0, 1 and 2 of `snsApLfSy`, as (AP, LF, SY). */
  function ChannelCountsIM(meta: map<string, string>): (r: Result<(int, int, int)>)
    ensures ApLfSyKey !in meta ==> r == Err(KeyError(ApLfSyKey))
  {
    if ApLfSyKey !in meta then Err(KeyError(ApLfSyKey))
    else
      var chanCountList := Split(meta[ApLfSyKey], ',');
      var ap :- IntField(chanCountList, 0);
      var lf :- IntField(chanCountList, 1);
      var sy :- IntField(chanCountList, 2);
      Ok((ap, lf, sy))
  }

  /** The counts are read exactly when comma fields 0 to 2 exist and are integers, and then are their values. */
  lemma ChannelCountsFields(meta: map<string, string>)
    requires ApLfSyKey in meta
    ensures var f := Split(meta[ApLfSyKey], ',');
      var r := ChannelCountsIM(meta);
      (r.Ok? <==> |f| >= 3 && ParseInt(f[0]).Some? && ParseInt(f[1]).Some? && ParseInt(f[2]).Some?) &&
      (r.Ok? ==> ParseInt(f[0]) == Some(r.value.0) && ParseInt(f[1]) == Some(r.value.1) &&
                 ParseInt(f[2]) == Some(r.value.2))
  {
    var f := Split(meta[ApLfSyKey], ',');
    IntFieldAt(f, 0);
    IntFieldAt(f, 1);
    IntFieldAt(f, 2);
  }

  /** The text `AP,LF,SY` that SpikeGLX writes for `snsApLfSy`. */
  function CountsText(ap: int, lf: int, sy: int): string {
    FormatInt(ap) + "," + FormatInt(lf) + "," + FormatInt(sy)
  }

  /** The comma fields of the counts text, however many fields follow. */
  lemma CountsFields(ap: int, lf: int, sy: int, extra: string)
    requires extra == [] || extra[0] == ','
    ensures var f := Split(CountsText(ap, lf, sy) + extra, ',');
      |f| >= 3 && f[0] == FormatInt(ap) && f[1] == FormatInt(lf) && f[2] == FormatInt(sy)
  {
    var a, b, c := FormatInt(ap), FormatInt(lf), FormatInt(sy);
    FormatIntAvoids(ap, ',');
    FormatIntAvoids(lf, ',');
    FormatIntAvoids(sy, ',');
    assert CountsText(ap, lf, sy) + extra == a + [','] + (b + [','] + (c + extra));
    SplitAtFirst(a, ',', b + [','] + (c + extra));
    SplitAtFirst(b, ',', c + extra);
    if extra == [] {
      assert c + extra == c;
      SplitNoSeparator(c, ',');
    } else {
      assert c + extra == c + [','] + extra[1..];
      SplitAtFirst(c, ',', extra[1..]);
    }
  }

  /** The counts written as text are read back, whatever further comma fields follow. */
  lemma ChannelCountsRoundTrip(meta: map<string, string>, ap: int, lf: int, sy: int, extra: string)
    requires extra == [] || extra[0] == ','
    requires ApLfSyKey in meta && meta[ApLfSyKey] == CountsText(ap, lf, sy) + extra
    ensures ChannelCountsIM(meta) == Ok((ap, lf, sy))
  {
    CountsFields(ap, lf, sy, extra);
    ChannelCountsFields(meta);
    ParseIntFormat(ap);
    ParseIntFormat(lf);
    ParseIntFormat(sy);
  }

  // ---------------------------------------------------------------------
  // geomMapToGeom
  // ---------------------------------------------------------------------

  const GeomMapKey: string := "snsGeomMap"

  /** One `(shank:x:y:connected` record of `snsGeomMap`. */
  datatype Entry = Entry(shank: int, x: real, y: real, connected: int)

  /** The `(tag,nShank,pitch,width` header of `snsGeomMap`. */
  datatype Header = Header(nShank: int, pitch: real, width: real)

  /** What `geomMapToGeom` returns, in its order: the width comes before the pitch. */
  datatype Geometry = Geometry(nShank: int, shankWidth: real, shankPitch: real,
                               shankInd: seq<int>, xCoord: seq<real>, yCoord: seq<real>,
                               connected: seq<int>)

  /** One record: its first character dropped, colon fields 0 to 3 as shank, x, y, connected. */
  function ParseEntry(piece: string): (r: Result<Entry>)
    ensures r.Err? ==> r.error.IndexError? || r.error.ParseError?
  {
    var currList := Split(DropFirst(piece), ':');
    var shank :- IntField(currList, 0);
    var x :- RealField(currList, 1);
    var y :- RealField(currList, 2);
    var connected :- IntField(currList, 3);
    Ok(Entry(shank, x, y, connected))
  }

  /** A record parses exactly when it has four colon fields that parse, and then holds their values. */
  lemma ParseEntryFields(piece: string)
    ensures var f := Split(DropFirst(piece), ':');
      (ParseEntry(piece).Ok? <==> (|f| >= 4 && ParseInt(f[0]).Some? && ParseReal(f[1]).Some? &&
                                   ParseReal(f[2]).Some? && ParseInt(f[3]).Some?)) &&
      (ParseEntry(piece).Ok? ==>
         var e := ParseEntry(piece).value;
         ParseInt(f[0]) == Some(e.shank) && ParseReal(f[1]) == Some(e.x) &&
         ParseReal(f[2]) == Some(e.y) && ParseInt(f[3]) == Some(e.connected))
  {
    var f := Split(DropFirst(piece), ':');
    IntFieldAt(f, 0);
    RealFieldAt(f, 1);
    RealFieldAt(f, 2);
    IntFieldAt(f, 3);
  }

  /** The header: comma field 1 is nShank, field 2 the pitch, field 3 the width; field 0 is ignored. */
  function ParseHeader(piece: string): (r: Result<Header>)
    ensures r.Err? ==> r.error.IndexError? || r.error.ParseError?
  {
    var currList := Split(piece, ',');
    var nShank :- IntField(currList, 1);
    var pitch :- RealField(currList, 2);
    var width :- RealField(currList, 3);
    Ok(Header(nShank, pitch, width))
  }

  /** The header parses exactly when comma fields 1 to 3 exist and parse, and then holds their values. */
  lemma ParseHeaderFields(piece: string)
    ensures var f := Split(piece, ',');
      (ParseHeader(piece).Ok? <==> (|f| >= 4 && ParseInt(f[1]).Some? && ParseReal(f[2]).Some? &&
                                    ParseReal(f[3]).Some?)) &&
      (ParseHeader(piece).Ok? ==>
         var h := ParseHeader(piece).value;
         ParseInt(f[1]) == Some(h.nShank) && ParseReal(f[2]) == Some(h.pitch) && ParseReal(f[3]) == Some(h.width))
  {
    var f := Split(piece, ',');
    IntFieldAt(f, 1);
    RealFieldAt(f, 2);
    RealFieldAt(f, 3);
  }

  /** The parse of every record: piece `i + 1` of the split map for entry `i`. */
  function Records(geomMap: seq<string>): (r: seq<Result<Entry>>)
    requires |geomMap| >= 2
    ensures |r| == |geomMap| - 2 && forall i :: 0 <= i < |r| ==> r[i] == ParseEntry(geomMap[i + 1])
  {
    seq(|geomMap| - 2, i requires 0 <= i < |geomMap| - 2 => ParseEntry(geomMap[i + 1]))
  }

  function Shanks(es: seq<Entry>): (r: seq<int>)
    ensures |r| == |es| && forall i :: 0 <= i < |es| ==> r[i] == es[i].shank
  {
    seq(|es|, i requires 0 <= i < |es| => es[i].shank)
  }

  function Xs(es: seq<Entry>): (r: seq<real>)
    ensures |r| == |es| && forall i :: 0 <= i < |es| ==> r[i] == es[i].x
  {
    seq(|es|, i requires 0 <= i < |es| => es[i].x)
  }

  function Ys(es: seq<Entry>): (r: seq<real>)
    ensures |r| == |es| && forall i :: 0 <= i < |es| ==> r[i] == es[i].y
  {
    seq(|es|, i requires 0 <= i < |es| => es[i].y)
  }

  function Connections(es: seq<Entry>): (r: seq<int>)
    ensures |r| == |es| && forall i :: 0 <= i < |es| ==> r[i] == es[i].connected
  {
    seq(|es|, i requires 0 <= i < |es| => es[i].connected)
  }

  /**
   * What `geomMapToGeom` computes: split `snsGeomMap` on `)`, read one
   * record from each piece between the first (the header) and the last.
   * `np.zeros` refuses the negative length of a value without `)`.
   */
  function GeomOf(meta: map<string, string>): (r: Result<Geometry>)
    ensures r.Ok? ==> |r.value.xCoord| == |r.value.shankInd| && |r.value.yCoord| == |r.value.shankInd| &&
                      |r.value.connected| == |r.value.shankInd|
  {
    if GeomMapKey !in meta then Err(KeyError(GeomMapKey))
    else
      var geomMap := Split(meta[GeomMapKey], ')');
      if |geomMap| < 2 then Err(NegativeDimension)
      else
        Assemble(AllOk(Records(geomMap), |geomMap| - 2), ParseHeader(geomMap[0]))
  }

  /** The records first, then the header; the first failure wins. */
  function Assemble(entries: Result<seq<Entry>>, header: Result<Header>): (r: Result<Geometry>)
    ensures r.Ok? ==> |r.value.xCoord| == |r.value.shankInd| && |r.value.yCoord| == |r.value.shankInd| &&
                      |r.value.connected| == |r.value.shankInd|
  {
    var es :- entries;
    var h :- header;
    Ok(Geometry(h.nShank, h.width, h.pitch, Shanks(es), Xs(es), Ys(es), Connections(es)))
  }

  /** Four columns that agree with the entries row by row are the entries' columns. */
  lemma Columns(shankInd: seq<int>, xCoord: seq<real>, yCoord: seq<real>, connected: seq<int>, es: seq<Entry>)
    requires |shankInd| == |xCoord| == |yCoord| == |connected| == |es|
    requires forall k :: 0 <= k < |es| ==> Entry(shankInd[k], xCoord[k], yCoord[k], connected[k]) == es[k]
    ensures shankInd == Shanks(es) && xCoord == Xs(es) && yCoord == Ys(es) && connected == Connections(es)
  {
  }

  /** `geomMapToGeom`: allocates the four arrays, fills them from the records, then reads the header. */
  method GeomMapToGeom(meta: map<string, string>) returns (r: Result<Geometry>)
    ensures r == GeomOf(meta)
  {
    hide ParseEntry, ParseHeader;
    GeomOfStages(meta);
    if GeomMapKey !in meta {
      return Err(KeyError(GeomMapKey));
    }
    var geomMap := Split(meta[GeomMapKey], ')');
    var nEntry := |geomMap| - 2;
    if nEntry < 0 {
      return Err(NegativeDimension);
    }
    var shankInd := new int[nEntry];
    var xCoord := new real[nEntry];
    var yCoord := new real[nEntry];
    var connected := new int[nEntry];
    var entries := FillRecords(geomMap, shankInd, xCoord, yCoord, connected);
    if entries.Err? {
      return Err(entries.error);
    }
    var h := ParseHeader(geomMap[0]);
    if h.Err? {
      return Err(h.error);
    }
    r := Ok(Geometry(h.value.nShank, h.value.width, h.value.pitch,
                     shankInd[..], xCoord[..], yCoord[..], connected[..]));
  }

  /**
   * The loop of `geomMapToGeom`: entry `i` from piece `i + 1`, stopping at
   * the first record that fails.
   */
  method FillRecords(geomMap: seq<string>, shankInd: array<int>, xCoord: array<real>, yCoord: array<real>,
                     connected: array<int>) returns (r: Result<seq<Entry>>)
    requires |geomMap| >= 2
    requires shankInd.Length == |geomMap| - 2 && xCoord.Length == |geomMap| - 2
    requires yCoord.Length == |geomMap| - 2 && connected.Length == |geomMap| - 2
    requires shankInd != connected && xCoord != yCoord
    modifies shankInd, xCoord, yCoord, connected
    ensures r == AllOk(Records(geomMap), |geomMap| - 2)
    ensures r.Ok? ==> shankInd[..] == Shanks(r.value) && xCoord[..] == Xs(r.value) &&
                      yCoord[..] == Ys(r.value) && connected[..] == Connections(r.value)
  {
    hide ParseEntry;
    var nEntry := |geomMap| - 2;
    ghost var records := Records(geomMap);
    var entries: seq<Entry> := [];
    for i := 0 to nEntry
      invariant |entries| == i
      invariant AllOk(records, i) == Ok(entries)
      invariant forall k :: 0 <= k < i ==>
        Entry(shankInd[k], xCoord[k], yCoord[k], connected[k]) == entries[k]
    {
      var e := ParseEntry(geomMap[i + 1]);
      assert e == records[i];
      if e.Err? {
        AllOkErrorPersists(records, i + 1, nEntry);
        return Err(e.error);
      }
      shankInd[i] := e.value.shank;
      xCoord[i] := e.value.x;
      yCoord[i] := e.value.y;
      connected[i] := e.value.connected;
      entries := entries + [e.value];
    }
    Columns(shankInd[..], xCoord[..], yCoord[..], connected[..], entries);
    r := Ok(entries);
  }

  /** `GeomOf` in stages: the key, the `)` pieces, then the records and the header. */
  lemma GeomOfStages(meta: map<string, string>)
    ensures GeomMapKey !in meta ==> GeomOf(meta) == Err(KeyError(GeomMapKey))
    ensures GeomMapKey in meta ==>
      var geomMap := Split(meta[GeomMapKey], ')');
      (|geomMap| < 2 ==> GeomOf(meta) == Err(NegativeDimension)) &&
      (|geomMap| >= 2 ==>
         GeomOf(meta) == Assemble(AllOk(Records(geomMap), |geomMap| - 2), ParseHeader(geomMap[0])))
  {
    hide ParseEntry, ParseHeader;
  }

  /** A geometry that was assembled holds the header's values and one entry per record, in order. */
  lemma AssembleOk(rs: seq<Result<Entry>>, h: Result<Header>, g: Geometry)
    requires Assemble(AllOk(rs, |rs|), h) == Ok(g)
    ensures h == Ok(Header(g.nShank, g.shankPitch, g.shankWidth))
    ensures |g.shankInd| == |rs| &&
      forall i :: 0 <= i < |rs| ==> rs[i] == Ok(Entry(g.shankInd[i], g.xCoord[i], g.yCoord[i], g.connected[i]))
  {
    var es := AllOk(rs, |rs|).value;
    AllOkSpec(rs, |rs|, es);
  }

  /** Assembling succeeds exactly when the header and every record parse. */
  lemma AssembleOkIff(rs: seq<Result<Entry>>, h: Result<Header>)
    ensures Assemble(AllOk(rs, |rs|), h).Ok? <==> h.Ok? && forall i :: 0 <= i < |rs| ==> rs[i].Ok?
  {
    AllOkIff(rs, |rs|);
  }

  /** Records that all parse, and a header that parses, give their columns. */
  lemma AssembleRows(rs: seq<Result<Entry>>, h: Header, es: seq<Entry>)
    requires |es| == |rs| && forall i :: 0 <= i < |rs| ==> rs[i] == Ok(es[i])
    ensures Assemble(AllOk(rs, |rs|), Ok(h)) ==
      Ok(Geometry(h.nShank, h.width, h.pitch, Shanks(es), Xs(es), Ys(es), Connections(es)))
  {
    AllOkSpec(rs, |rs|, es);
  }

  /**
   * The entries of a parsed map: one per `)`-piece minus the header and
   * the trailing piece, in file order, entry `i` from piece `i + 1`, and
   * the header from piece 0.
   */
  lemma GeomEntries(meta: map<string, string>, g: Geometry)
    requires GeomOf(meta) == Ok(g)
    ensures GeomMapKey in meta
    ensures var pieces := Split(meta[GeomMapKey], ')');
      |g.shankInd| == |pieces| - 2 &&
      |g.shankInd| == Count(meta[GeomMapKey], ')') - 1 &&
      ParseHeader(pieces[0]) == Ok(Header(g.nShank, g.shankPitch, g.shankWidth)) &&
      forall i :: 0 <= i < |g.shankInd| ==>
        ParseEntry(pieces[i + 1]) == Ok(Entry(g.shankInd[i], g.xCoord[i], g.yCoord[i], g.connected[i]))
  {
    hide *;
    GeomOfStages(meta);
    var pieces := Split(meta[GeomMapKey], ')');
    SplitCount(meta[GeomMapKey], ')');
    var rs := Records(pieces);
    AssembleOk(rs, ParseHeader(pieces[0]), g);
    assert forall i :: 0 <= i < |rs| ==> rs[i] == ParseEntry(pieces[i + 1]);
  }

  /** The map parses exactly when its key is present, it has a `)`, and every record and the header parse. */
  lemma GeomOkIff(meta: map<string, string>)
    ensures GeomOf(meta).Ok? <==>
      GeomMapKey in meta &&
      var pieces := Split(meta[GeomMapKey], ')');
      |pieces| >= 2 && ParseHeader(pieces[0]).Ok? &&
      forall i :: 1 <= i < |pieces| - 1 ==> ParseEntry(pieces[i]).Ok?
  {
    hide *;
    GeomOfStages(meta);
    if GeomMapKey in meta {
      var pieces := Split(meta[GeomMapKey], ')');
      if |pieces| >= 2 {
        var rs := Records(pieces);
        AssembleOkIff(rs, ParseHeader(pieces[0]));
        assert forall i :: 1 <= i < |pieces| - 1 ==> rs[i - 1] == ParseEntry(pieces[i]);
      }
    }
  }

  /** A map without any `)` fails with the negative length, whatever else it holds. */
  lemma GeomWithoutParenthesis(meta: map<string, string>)
    requires GeomMapKey in meta && ')' !in meta[GeomMapKey]
    ensures GeomOf(meta) == Err(NegativeDimension)
  {
    SplitNoSeparator(meta[GeomMapKey], ')');
  }

  // ---------------------------------------------------------------------
  // Writing a geometry map, for the round trip
  // ---------------------------------------------------------------------

  /** One channel with whole-number coordinates, as SpikeGLX writes them. */
  datatype Site = Site(shank: int, x: int, y: int, connected: int)

  function SiteFields(s: Site): seq<string> {
    [FormatInt(s.shank), FormatInt(s.x), FormatInt(s.y), FormatInt(s.connected)]
  }

  /** `(shank:x:y:connected`, the piece of one channel before its `)`. */
  function SitePiece(s: Site): string {
    "(" + Join(SiteFields(s), ':')
  }

  function HeaderFields(tag: string, nShank: int, pitch: int, width: int): seq<string> {
    ["(" + tag, FormatInt(nShank), FormatInt(pitch), FormatInt(width)]
  }

  /** `(tag,nShank,pitch,width`, the piece before the first `)`. */
  function HeaderPiece(tag: string, nShank: int, pitch: int, width: int): string {
    Join(HeaderFields(tag, nShank, pitch, width), ',')
  }

  function SitePieces(sites: seq<Site>): (r: seq<string>)
    ensures |r| == |sites| && forall i :: 0 <= i < |sites| ==> r[i] == SitePiece(sites[i])
  {
    seq(|sites|, i requires 0 <= i < |sites| => SitePiece(sites[i]))
  }

  /** `(tag,nShank,pitch,width)(shank:x:y:connected)...(shank:x:y:connected)`, as SpikeGLX writes the map. */
  function GeomMapText(tag: string, nShank: int, pitch: int, width: int, sites: seq<Site>): string {
    Join([HeaderPiece(tag, nShank, pitch, width)] + SitePieces(sites) + [""], ')')
  }

  function SiteEntry(s: Site): Entry {
    Entry(s.shank, s.x as real, s.y as real, s.connected)
  }

  function SiteEntries(sites: seq<Site>): (r: seq<Entry>)
    ensures |r| == |sites| && forall i :: 0 <= i < |sites| ==> r[i] == SiteEntry(sites[i])
  {
    seq(|sites|, i requires 0 <= i < |sites| => SiteEntry(sites[i]))
  }

  /** No field of a channel holds `c` when `c` is neither a digit nor `-`. */
  lemma SiteFieldsAvoid(s: Site, c: char)
    requires c != '-' && !IsDigit(c)
    ensures forall i :: 0 <= i < |SiteFields(s)| ==> c !in SiteFields(s)[i]
  {
    FormatIntAvoids(s.shank, c);
    FormatIntAvoids(s.x, c);
    FormatIntAvoids(s.y, c);
    FormatIntAvoids(s.connected, c);
  }

  /** No header field holds `c` when `c` is neither a digit, `-`, `(` nor in the tag. */
  lemma HeaderFieldsAvoid(tag: string, nShank: int, pitch: int, width: int, c: char)
    requires c != '-' && c != '(' && !IsDigit(c) && c !in tag
    ensures var f := HeaderFields(tag, nShank, pitch, width);
      forall i :: 0 <= i < |f| ==> c !in f[i]
  {
    FormatIntAvoids(nShank, c);
    FormatIntAvoids(pitch, c);
    FormatIntAvoids(width, c);
  }

  lemma SitePieceNoParenthesis(s: Site)
    ensures ')' !in SitePiece(s)
  {
    SiteFieldsAvoid(s, ')');
    JoinAvoids(SiteFields(s), ':', ')');
  }

  lemma HeaderPieceNoParenthesis(tag: string, nShank: int, pitch: int, width: int)
    requires ')' !in tag
    ensures ')' !in HeaderPiece(tag, nShank, pitch, width)
  {
    HeaderFieldsAvoid(tag, nShank, pitch, width, ')');
    JoinAvoids(HeaderFields(tag, nShank, pitch, width), ',', ')');
  }

  /** The `)`-pieces of a written geometry map: the header, one piece per channel, and an empty tail. */
  lemma GeomMapPieces(tag: string, nShank: int, pitch: int, width: int, sites: seq<Site>)
    requires ')' !in tag
    ensures Split(GeomMapText(tag, nShank, pitch, width, sites), ')') ==
      [HeaderPiece(tag, nShank, pitch, width)] + SitePieces(sites) + [""]
  {
    hide SitePiece, HeaderPiece;
    var parts := [HeaderPiece(tag, nShank, pitch, width)] + SitePieces(sites) + [""];
    forall i | 0 <= i < |parts| ensures ')' !in parts[i] {
      if i == 0 {
        HeaderPieceNoParenthesis(tag, nShank, pitch, width);
      } else if i <= |sites| {
        assert parts[i] == SitePiece(sites[i - 1]);
        SitePieceNoParenthesis(sites[i - 1]);
      }
    }
    SplitJoin(parts, ')');
  }

  /** Every channel piece of a written map is read back as that channel. */
  lemma SiteRecords(pieces: seq<string>, hp: string, sites: seq<Site>)
    requires pieces == [hp] + SitePieces(sites) + [""]
    ensures |Records(pieces)| == |sites| &&
      forall i :: 0 <= i < |sites| ==> Records(pieces)[i] == Ok(SiteEntry(sites[i]))
  {
    hide *;
    forall i | 0 <= i < |sites| ensures Records(pieces)[i] == Ok(SiteEntry(sites[i])) {
      assert pieces[i + 1] == SitePiece(sites[i]);
      ParseSitePiece(sites[i]);
    }
  }

  /** The colon fields of a channel piece are the channel's numbers. */
  lemma SplitSitePiece(s: Site)
    ensures Split(DropFirst(SitePiece(s)), ':') == SiteFields(s)
  {
    SiteFieldsAvoid(s, ':');
    assert DropFirst(SitePiece(s)) == Join(SiteFields(s), ':');
    SplitJoin(SiteFields(s), ':');
  }

  lemma ParseSitePiece(s: Site)
    ensures ParseEntry(SitePiece(s)) == Ok(SiteEntry(s))
  {
    SplitSitePiece(s);
    ParseIntFormat(s.shank);
    ParseRealFormat(s.x);
    ParseRealFormat(s.y);
    ParseIntFormat(s.connected);
    ParseEntryFields(SitePiece(s));
  }

  /** The comma fields of a header piece are the tag and the three numbers. */
  lemma SplitHeaderPiece(tag: string, nShank: int, pitch: int, width: int)
    requires ',' !in tag
    ensures Split(HeaderPiece(tag, nShank, pitch, width), ',') == HeaderFields(tag, nShank, pitch, width)
  {
    HeaderFieldsAvoid(tag, nShank, pitch, width, ',');
    SplitJoin(HeaderFields(tag, nShank, pitch, width), ',');
  }

  lemma ParseHeaderPiece(tag: string, nShank: int, pitch: int, width: int)
    requires ',' !in tag
    ensures ParseHeader(HeaderPiece(tag, nShank, pitch, width)) == Ok(Header(nShank, pitch as real, width as real))
  {
    SplitHeaderPiece(tag, nShank, pitch, width);
    ParseIntFormat(nShank);
    ParseRealFormat(pitch);
    ParseRealFormat(width);
    ParseHeaderFields(HeaderPiece(tag, nShank, pitch, width));
  }

  /** A geometry map written out as text is read back: header fields, then every channel in order. */
  lemma GeomRoundTrip(meta: map<string, string>, tag: string, nShank: int, pitch: int, width: int, sites: seq<Site>)
    requires ',' !in tag && ')' !in tag
    requires GeomMapKey in meta && meta[GeomMapKey] == GeomMapText(tag, nShank, pitch, width, sites)
    ensures GeomOf(meta).Ok?
    ensures var g := GeomOf(meta).value;
      g.nShank == nShank && g.shankPitch == pitch as real && g.shankWidth == width as real &&
      |g.shankInd| == |sites| &&
      forall i :: 0 <= i < |sites| ==>
        g.shankInd[i] == sites[i].shank && g.xCoord[i] == sites[i].x as real &&
        g.yCoord[i] == sites[i].y as real && g.connected[i] == sites[i].connected
  {
    hide ParseEntry, ParseHeader, SitePiece, HeaderPiece, GeomMapText, Split;
    GeomMapPieces(tag, nShank, pitch, width, sites);
    var geomMap := Split(meta[GeomMapKey], ')');
    SiteRecords(geomMap, HeaderPiece(tag, nShank, pitch, width), sites);
    var es := SiteEntries(sites);
    var rs := Records(geomMap);
    ParseHeaderPiece(tag, nShank, pitch, width);
    AssembleRows(rs, Header(nShank, pitch as real, width as real), es);
    GeomOfStages(meta);
    var g := GeomOf(meta).value;
    assert g == Geometry(nShank, width as real, pitch as real, Shanks(es), Xs(es), Ys(es), Connections(es));
    forall i | 0 <= i < |sites|
      ensures g.shankInd[i] == sites[i].shank && g.xCoord[i] == sites[i].x as real &&
              g.yCoord[i] == sites[i].y as real && g.connected[i] == sites[i].connected
    {
      assert es[i] == SiteEntry(sites[i]);
    }
  }

  // ---------------------------------------------------------------------
  // CoordsToKSChanMap
  // ---------------------------------------------------------------------

  /** Where `savemat` would write: `savePath / (baseName + "_kilosortChanMap.mat")`, or `savePath` itself. */
  datatype SaveTarget = InDirectory(dir: string, file: string) | AtPath(path: string)

  /** The dictionary handed to `savemat`; every numeric array is float64, so `real`. */
  datatype ChanMapDict = ChanMapDict(chanMap: seq<real>, chanMap0ind: seq<real>, connected: seq<bool>,
                                     name: string, xcoords: seq<real>, ycoords: seq<real>,
                                     kcoords: seq<real>)

  /** `CoordsToKSChanMap` either saves a dictionary or returns early without saving. */
  datatype SaveOutcome = Saved(target: SaveTarget, mdict: ChanMapDict) | NotSaved

  /** Every array of the dictionary has one entry per channel. */
  predicate HasChannels(d: ChanMapDict, nChan: nat) {
    |d.chanMap| == nChan && |d.chanMap0ind| == nChan && |d.connected| == nChan &&
    |d.xcoords| == nChan && |d.ycoords| == nChan && |d.kcoords| == nChan
  }

  /**
   * `CoordsToKSChanMap`: the channel map in file order. The early return
   * when `connected` cannot be reshaped to `nChan` rows saves nothing.
   */
  function CoordsToKSChanMap(chans: seq<int>, xCoord: seq<real>, yCoord: seq<real>, connected: seq<int>,
                             shankInd: seq<int>, shankSep: real, baseName: string, savePath: string,
                             buildPath: bool): (r: SaveOutcome)
    requires |xCoord| == |shankInd| && |yCoord| == |shankInd| && |connected| == |shankInd|
    ensures r.Saved? <==> |connected| == |chans|
    ensures r.Saved? ==>
      r.target == (if buildPath then InDirectory(savePath, baseName + "_kilosortChanMap.mat") else AtPath(savePath))
    ensures r.Saved? ==> HasChannels(r.mdict, |chans|) && r.mdict.name == baseName
    ensures r.Saved? ==> forall i :: 0 <= i < |chans| ==> r.mdict.chanMap0ind[i] == i as real
    ensures r.Saved? ==> forall i :: 0 <= i < |chans| ==> r.mdict.chanMap[i] == r.mdict.chanMap0ind[i] + 1.0
    ensures r.Saved? ==> forall i :: 0 <= i < |chans| ==> (r.mdict.connected[i] <==> connected[i] == 1)
    ensures r.Saved? ==> forall i :: 0 <= i < |chans| ==>
      r.mdict.xcoords[i] == shankInd[i] as real * shankSep + xCoord[i]
    ensures r.Saved? ==> forall i :: 0 <= i < |chans| ==> r.mdict.ycoords[i] == yCoord[i]
    ensures r.Saved? ==> forall i :: 0 <= i < |chans| ==> r.mdict.kcoords[i] == (shankInd[i] + 1) as real
  {
    var saveFullPath := if buildPath then InDirectory(savePath, baseName + "_kilosortChanMap.mat")
                        else AtPath(savePath);
    var nChan := |chans|;
    var chanMap0ind := seq(nChan, i => i as real);
    var chanMap := seq(nChan, i requires 0 <= i < nChan => chanMap0ind[i] + 1.0);
    if |connected| != nChan then NotSaved
    else
      var isConnected := seq(nChan, i requires 0 <= i < nChan => connected[i] == 1);
      var xcoords := seq(nChan, i requires 0 <= i < nChan => shankInd[i] as real * shankSep + xCoord[i]);
      var kcoords := seq(nChan, i requires 0 <= i < nChan => (shankInd[i] + 1) as real);
      Saved(saveFullPath, ChanMapDict(chanMap, chanMap0ind, isConnected, baseName, xcoords, yCoord, kcoords))
  }
}
