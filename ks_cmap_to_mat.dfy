/**
 * The converter's entry point: check that the metadata file exists, read
 * it, take the AP channel count and the geometry, and build the Kilosort
 * channel map that would be saved next to the metadata file.
 */
module KsCmapToMat {
  import opened Results
  import opened Strings
  import opened Numbers
  import opened KsHelpers

  /** The number of elements of `np.arange(n)`. */
  function ArangeSize(n: int): nat {
    if n < 0 then 0 else n
  }

  /** `np.arange(n)`: 0, 1, ..., n - 1, and empty when `n` is not positive. */
  function Arange(n: int): (r: seq<int>)
    ensures |r| == ArangeSize(n) && forall i :: 0 <= i < |r| ==> r[i] == i
  {
    seq(ArangeSize(n), i => i)
  }

  /**
   * `main(meta_file)`: `fileExists`, `lines`, `stem` and `parent` stand for
   * `meta_file.exists()`, the file's lines, `meta_file.stem` and
   * `meta_file.parent`. Each exception of a step ends the run with that
   * error; otherwise the outcome is what `CoordsToKSChanMap` does with the
   * AP channels and the geometry, the pitch serving as the shank offset.
   */
  function Convert(fileExists: bool, lines: seq<string>, stem: string, parent: string): (r: Result<SaveOutcome>)
    ensures !fileExists ==> r == Err(AssertionError)
    ensures fileExists && MetaOf(lines).Err? ==> r == Err(MetaOf(lines).error)
    ensures fileExists && MetaOf(lines).Ok? && ChannelCountsIM(MetaOf(lines).value).Err? ==>
      r == Err(ChannelCountsIM(MetaOf(lines).value).error)
    ensures (fileExists && MetaOf(lines).Ok? && ChannelCountsIM(MetaOf(lines).value).Ok? &&
             GeomOf(MetaOf(lines).value).Err?) ==> r == Err(GeomOf(MetaOf(lines).value).error)
    ensures r.Ok? && r.value.Saved? ==>
      r.value.target == InDirectory(parent, stem + "_kilosortChanMap.mat") && r.value.mdict.name == stem
  {
    if !fileExists then Err(AssertionError)
    else
      var meta :- MetaOf(lines);
      var counts :- ChannelCountsIM(meta);
      var channels := Arange(counts.0);
      var g :- GeomOf(meta);
      Ok(CoordsToKSChanMap(channels, g.xCoord, g.yCoord, g.connected, g.shankInd, g.shankPitch, stem, parent, true))
  }

  /** A run ends without an exception exactly when the file exists and every step succeeds. */
  lemma ConvertOkIff(fileExists: bool, lines: seq<string>, stem: string, parent: string)
    ensures Convert(fileExists, lines, stem, parent).Ok? <==>
      (fileExists && MetaOf(lines).Ok? && ChannelCountsIM(MetaOf(lines).value).Ok? &&
       GeomOf(MetaOf(lines).value).Ok?)
  {
    hide MetaOf, ChannelCountsIM, GeomOf, CoordsToKSChanMap;
  }

  /**
   * A channel map is saved exactly when every step succeeds and the AP
   * count (as the size of `np.arange`) equals the number of geometry entries.
   */
  lemma ConvertSavedIff(fileExists: bool, lines: seq<string>, stem: string, parent: string)
    ensures var r := Convert(fileExists, lines, stem, parent);
      (r.Ok? && r.value.Saved?) <==>
      (fileExists && MetaOf(lines).Ok? && ChannelCountsIM(MetaOf(lines).value).Ok? &&
       GeomOf(MetaOf(lines).value).Ok? &&
       |GeomOf(MetaOf(lines).value).value.shankInd| == ArangeSize(ChannelCountsIM(MetaOf(lines).value).value.0))
  {
    hide MetaOf, ChannelCountsIM, GeomOf;
  }

  /** An AP count that differs from the number of geometry entries ends the run with nothing saved. */
  lemma ConvertMismatch(lines: seq<string>, stem: string, parent: string)
    requires MetaOf(lines).Ok?
    requires ChannelCountsIM(MetaOf(lines).value).Ok? && GeomOf(MetaOf(lines).value).Ok?
    requires |GeomOf(MetaOf(lines).value).value.shankInd| != ArangeSize(ChannelCountsIM(MetaOf(lines).value).value.0)
    ensures Convert(true, lines, stem, parent) == Ok(NotSaved)
  {
    hide MetaOf, ChannelCountsIM, GeomOf;
  }

  /**
   * The saved map: one row per AP channel, the channels in file order, and
   * x shifted by the shank index times the header's pitch (not its width).
   */
  lemma ConvertChanMap(lines: seq<string>, stem: string, parent: string, target: SaveTarget, d: ChanMapDict)
    requires MetaOf(lines).Ok?
    requires Convert(true, lines, stem, parent) == Ok(Saved(target, d))
    ensures ChannelCountsIM(MetaOf(lines).value).Ok? && GeomOf(MetaOf(lines).value).Ok?
    ensures var ap := ChannelCountsIM(MetaOf(lines).value).value.0;
      var g := GeomOf(MetaOf(lines).value).value;
      HasChannels(d, ArangeSize(ap)) && |g.shankInd| == ArangeSize(ap) &&
      forall i :: 0 <= i < ArangeSize(ap) ==>
        d.chanMap0ind[i] == i as real && d.chanMap[i] == (i + 1) as real &&
        d.xcoords[i] == g.shankInd[i] as real * g.shankPitch + g.xCoord[i] &&
        d.ycoords[i] == g.yCoord[i] && d.kcoords[i] == (g.shankInd[i] + 1) as real &&
        (d.connected[i] <==> g.connected[i] == 1)
  {
    hide MetaOf, ChannelCountsIM, GeomOf;
    ConvertSavedIff(true, lines, stem, parent);
  }

  /** A file without an `snsApLfSy` line (an empty file among them) fails with KeyError on that key. */
  lemma ConvertWithoutCounts(lines: seq<string>, stem: string, parent: string)
    requires MetaOf(lines).Ok?
    requires forall i :: 0 <= i < |lines| ==> LineKey(lines[i]) != ApLfSyKey
    ensures Convert(true, lines, stem, parent) == Err(KeyError(ApLfSyKey))
  {
    hide MetaOf, GeomOf;
    MetaKeys(lines, MetaOf(lines).value);
  }

  /** A file with readable counts but no `snsGeomMap` line fails with KeyError on that key. */
  lemma ConvertWithoutGeometry(lines: seq<string>, stem: string, parent: string)
    requires MetaOf(lines).Ok? && ChannelCountsIM(MetaOf(lines).value).Ok?
    requires forall i :: 0 <= i < |lines| ==> LineKey(lines[i]) != GeomMapKey
    ensures Convert(true, lines, stem, parent) == Err(KeyError(GeomMapKey))
  {
    hide MetaOf, ChannelCountsIM;
    MetaKeys(lines, MetaOf(lines).value);
    GeomOfStages(MetaOf(lines).value);
  }

  // ---------------------------------------------------------------------
  // A metadata file written out, read back end to end
  // ---------------------------------------------------------------------

  /** The two lines SpikeGLX writes for the channel counts and the geometry map. */
  function MetaLines(ap: int, lf: int, sy: int, tag: string, nShank: int, pitch: int, width: int,
                     sites: seq<Site>): seq<string>
  {
    [ApLfSyKey + "=" + CountsText(ap, lf, sy),
     "~" + GeomMapKey + "=" + GeomMapText(tag, nShank, pitch, width, sites)]
  }

  /** A character that is none of the map's punctuation, digits or tag characters is not in the map. */
  lemma GeomMapTextAvoids(tag: string, nShank: int, pitch: int, width: int, sites: seq<Site>, c: char)
    requires c != '-' && c != '(' && c != ')' && c != ':' && c != ',' && !IsDigit(c) && c !in tag
    ensures c !in GeomMapText(tag, nShank, pitch, width, sites)
  {
    var parts := [HeaderPiece(tag, nShank, pitch, width)] + SitePieces(sites) + [""];
    forall i | 0 <= i < |parts| ensures c !in parts[i] {
      if i == 0 {
        HeaderFieldsAvoid(tag, nShank, pitch, width, c);
        JoinAvoids(HeaderFields(tag, nShank, pitch, width), ',', c);
      } else if i <= |sites| {
        assert parts[i] == SitePiece(sites[i - 1]);
        SiteFieldsAvoid(sites[i - 1], c);
        JoinAvoids(SiteFields(sites[i - 1]), ':', c);
      }
    }
    JoinAvoids(parts, ')', c);
  }

  /** The written lines are read as the two keys with their texts; the `~` of the geometry key is dropped. */
  lemma MetaLinesRead(ap: int, lf: int, sy: int, tag: string, nShank: int, pitch: int, width: int,
                      sites: seq<Site>)
    requires '=' !in tag
    ensures MetaOf(MetaLines(ap, lf, sy, tag, nShank, pitch, width, sites)) ==
      Ok(map[ApLfSyKey := CountsText(ap, lf, sy), GeomMapKey := GeomMapText(tag, nShank, pitch, width, sites)])
  {
    var counts := CountsText(ap, lf, sy);
    var geom := GeomMapText(tag, nShank, pitch, width, sites);
    FormatIntAvoids(ap, '=');
    FormatIntAvoids(lf, '=');
    FormatIntAvoids(sy, '=');
    GeomMapTextAvoids(tag, nShank, pitch, width, sites, '=');
    assert '=' !in ApLfSyKey && '=' !in "~" + GeomMapKey;
    ParseLineShape(ApLfSyKey, counts, []);
    ParseLineShape("~" + GeomMapKey, geom, []);
    assert ApLfSyKey + "=" + counts + [] == ApLfSyKey + "=" + counts;
    assert "~" + GeomMapKey + "=" + geom + [] == "~" + GeomMapKey + "=" + geom;
    assert ("~" + GeomMapKey)[1..] == GeomMapKey;
    var lines := MetaLines(ap, lf, sy, tag, nShank, pitch, width, sites);
    assert ParseLine(lines[0]) == Ok((ApLfSyKey, counts));
    assert ParseLine(lines[1]) == Ok((GeomMapKey, geom));
    assert lines[..1][..0] == [];
    assert MetaOf(lines[..1]) == Ok(map[ApLfSyKey := counts]);
    assert lines[..|lines| - 1] == lines[..1];
  }

  /**
   * Counts and a geometry map written as SpikeGLX writes them: the run
   * succeeds, saves exactly when the AP count matches the number of
   * channels written, and then saves those channels in order.
   */
  lemma ConvertRoundTrip(ap: int, lf: int, sy: int, tag: string, nShank: int, pitch: int, width: int,
                         sites: seq<Site>, stem: string, parent: string)
    requires ',' !in tag && ')' !in tag && '=' !in tag
    ensures var r := Convert(true, MetaLines(ap, lf, sy, tag, nShank, pitch, width, sites), stem, parent);
      r.Ok? && (r.value.Saved? <==> ArangeSize(ap) == |sites|)
    ensures var r := Convert(true, MetaLines(ap, lf, sy, tag, nShank, pitch, width, sites), stem, parent);
      r.Ok? && r.value.Saved? ==>
        var d := r.value.mdict;
        r.value.target == InDirectory(parent, stem + "_kilosortChanMap.mat") && d.name == stem &&
        HasChannels(d, |sites|) &&
        forall i :: 0 <= i < |sites| ==>
          d.chanMap0ind[i] == i as real && d.chanMap[i] == (i + 1) as real &&
          d.xcoords[i] == sites[i].shank as real * pitch as real + sites[i].x as real &&
          d.ycoords[i] == sites[i].y as real && d.kcoords[i] == (sites[i].shank + 1) as real &&
          (d.connected[i] <==> sites[i].connected == 1)
  {
    var lines := MetaLines(ap, lf, sy, tag, nShank, pitch, width, sites);
    var meta := map[ApLfSyKey := CountsText(ap, lf, sy), GeomMapKey := GeomMapText(tag, nShank, pitch, width, sites)];
    hide MetaOf, ChannelCountsIM, GeomOf, CountsText, GeomMapText, MetaLines;
    MetaLinesRead(ap, lf, sy, tag, nShank, pitch, width, sites);
    assert ApLfSyKey[3] != GeomMapKey[3];
    assert meta[ApLfSyKey] == CountsText(ap, lf, sy) + [];
    ChannelCountsRoundTrip(meta, ap, lf, sy, []);
    GeomRoundTrip(meta, tag, nShank, pitch, width, sites);
    ConvertSavedIff(true, lines, stem, parent);
    var r := Convert(true, lines, stem, parent);
    if r.Ok? && r.value.Saved? {
      ConvertChanMap(lines, stem, parent, r.value.target, r.value.mdict);
    }
  }

  /**
   * A two-shank probe with shanks 250 apart and three channels
   * (0, 0, 0, connected), (1, 10, 20, not connected), (0, 5, 5, connected).
   */
  lemma TwoShankExample(stem: string, parent: string)
    ensures Convert(true, MetaLines(3, 3, 1, "NP2014", 2, 250, 70,
                                    [Site(0, 0, 0, 1), Site(1, 10, 20, 0), Site(0, 5, 5, 1)]), stem, parent) ==
      Ok(Saved(InDirectory(parent, stem + "_kilosortChanMap.mat"),
               ChanMapDict([1.0, 2.0, 3.0], [0.0, 1.0, 2.0], [true, false, true], stem,
                           [0.0, 260.0, 5.0], [0.0, 20.0, 5.0], [1.0, 2.0, 1.0])))
  {
    var sites := [Site(0, 0, 0, 1), Site(1, 10, 20, 0), Site(0, 5, 5, 1)];
    var lines := MetaLines(3, 3, 1, "NP2014", 2, 250, 70, sites);
    hide MetaLines, Convert, MetaOf, ChannelCountsIM, GeomOf;
    ConvertRoundTrip(3, 3, 1, "NP2014", 2, 250, 70, sites, stem, parent);
    var r := Convert(true, lines, stem, parent);
    var d := r.value.mdict;
    assert d.chanMap == [1.0, 2.0, 3.0];
    assert d.chanMap0ind == [0.0, 1.0, 2.0];
    assert d.connected == [true, false, true];
    assert d.xcoords == [0.0, 260.0, 5.0];
    assert d.ycoords == [0.0, 20.0, 5.0];
    assert d.kcoords == [1.0, 2.0, 1.0];
  }
}
