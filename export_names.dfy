/**
 * What the export processor reads out of object names: the completed-manifest file name
 * `<exportId>.<strandId>.completed.manifest`, and the block range `<first>-<last>` that a data
 * file key carries in its second-to-last dot-separated segment.
 */
module ExportNames {
  import opened Wrappers
  import opened JavaStrings

  /** The runtime exceptions that reading a range out of a key can raise. */
  datatype KeyError =
    | SegmentOutOfBounds(key: string)   // ArrayIndexOutOfBoundsException
    | NotANumber(key: string)           // NumberFormatException

  // ---------------------------------------------------------------------------------------------
  // Completed-manifest names

  /** `name.matches("\\w+\\.\\w+\\.completed\\.manifest")`, decided on the dot-separated pieces. */
  predicate IsCompletedManifestName(name: string) {
    var parts := SplitAll(name, '.');
    && |parts| == 4
    && IsWord(parts[0]) && IsWord(parts[1])
    && parts[2] == "completed" && parts[3] == "manifest"
  }

  /** The same regular expression, read literally. */
  ghost predicate MatchesManifestPattern(name: string) {
    exists exportId, strandId :: IsWord(exportId) && IsWord(strandId) &&
      name == exportId + "." + strandId + ".completed.manifest"
  }

  /** Four pieces joined by the separator. */
  lemma JoinFour(parts: seq<string>, c: char)
    requires |parts| == 4
    ensures Join(parts, c) == parts[0] + [c] + (parts[1] + [c] + (parts[2] + [c] + parts[3]))
  {
    assert parts[1..][1..] == parts[2..];
    assert parts[2..][1..] == parts[3..];
    assert Join(parts[3..], c) == parts[3];
    assert Join(parts[2..], c) == parts[2] + [c] + parts[3];
    assert Join(parts[1..], c) == parts[1] + [c] + (parts[2] + [c] + parts[3]);
  }

  lemma ManifestNameMatchesPattern(name: string)
    ensures IsCompletedManifestName(name) <==> MatchesManifestPattern(name)
  {
    if IsCompletedManifestName(name) {
      ManifestNamePieces(name);
    }
    if MatchesManifestPattern(name) {
      var a, b :| IsWord(a) && IsWord(b) && name == a + "." + b + ".completed.manifest";
      PatternIsManifestName(a, b);
    }
  }

  lemma PatternIsManifestName(a: string, b: string)
    requires IsWord(a) && IsWord(b)
    ensures IsCompletedManifestName(a + "." + b + ".completed.manifest")
  {
    var name := a + "." + b + ".completed.manifest";
    var completed, manifest := "completed", "manifest";
    assert SplitAll(name, '.') == [a, b, completed, manifest] by {
      assert '.' !in a && '.' !in b by {
        assert forall i | 0 <= i < |a| :: IsWordChar(a[i]);
        assert forall i | 0 <= i < |b| :: IsWordChar(b[i]);
      }
      assert '.' !in completed && '.' !in manifest;
      SplitFour(a, b, completed, manifest, '.');
      ManifestNameJoined(a, b);
    }
  }

  lemma ManifestNameJoined(a: string, b: string)
    ensures a + "." + b + ".completed.manifest" == a + ['.'] + (b + ['.'] + ("completed" + ['.'] + "manifest"))
  {
    assert ".completed.manifest" == ['.'] + ("completed" + ['.'] + "manifest");
  }

  /** A completed-manifest name is its four pieces joined by dots. */
  lemma ManifestNamePieces(name: string)
    requires IsCompletedManifestName(name)
    ensures var parts := SplitAll(name, '.');
      name == parts[0] + "." + parts[1] + ".completed.manifest"
  {
    var parts := SplitAll(name, '.');
    JoinSplitAll(name, '.');
    JoinFour(parts, '.');
  }

  /** Four separator-free pieces joined by the separator split back into those pieces. */
  lemma SplitFour(a: string, b: string, x: string, y: string, c: char)
    requires c !in a && c !in b && c !in x && c !in y
    ensures SplitAll(a + [c] + (b + [c] + (x + [c] + y)), c) == [a, b, x, y]
  {
    SplitAllOfPiece(a, c);
    SplitAllOfPiece(b, c);
    SplitAllOfPiece(x, c);
    SplitAllOfPiece(y, c);
    var t3 := x + [c] + y;
    SplitAllAt(x, y, c);
    assert SplitAll(t3, c) == [x, y];
    var t2 := b + [c] + t3;
    SplitAllAt(b, t3, c);
    assert SplitAll(t2, c) == [b, x, y];
    SplitAllAt(a, t2, c);
  }

  /** `name.split("\\.")[1]`: the strand id of a completed-manifest name. */
  function Strand(name: string): (strand: string)
    requires IsCompletedManifestName(name)
    ensures IsWord(strand)
    ensures exists exportId :: name == exportId + "." + strand + ".completed.manifest"
  {
    var parts := SplitAll(name, '.');
    ManifestNamePieces(name);
    assert '.' in name by {
      assert name[|parts[0]|] == '.';
    }
    assert JavaSplit(name, '.') == parts;
    JavaSplit(name, '.')[1]
  }

  // ---------------------------------------------------------------------------------------------
  // Data file keys

  /** A `<first>-<last>` segment: two digit strings (possibly empty) around one dash. */
  predicate IsDigitRange(segment: string) {
    var halves := SplitAll(segment, '-');
    |halves| == 2 && AllDigits(halves[0]) && AllDigits(halves[1])
  }

  /** `key.matches("^.*\\.[0-9]*-[0-9]*\\.[a-zA-Z0-9]*$")`, decided on the dot-separated pieces. */
  predicate IsRangedKey(key: string) {
    var parts := SplitAll(key, '.');
    && |parts| >= 3
    && AllAlphanumeric(parts[|parts| - 1])
    && IsDigitRange(parts[|parts| - 2])
    && NoLineTerminator(Join(parts[..|parts| - 2], '.'))
  }

  /** The same regular expression, read literally. */
  ghost predicate MatchesKeyPattern(key: string) {
    exists prefix, first, last, suffix ::
      && NoLineTerminator(prefix) && AllDigits(first) && AllDigits(last) && AllAlphanumeric(suffix)
      && key == prefix + "." + first + "-" + last + "." + suffix
  }

  lemma JoinAppend(xs: seq<string>, ys: seq<string>, c: char)
    requires |xs| >= 1 && |ys| >= 1
    ensures Join(xs + ys, c) == Join(xs, c) + [c] + Join(ys, c)
  {
    if |xs| > 1 {
      assert (xs + ys)[1..] == xs[1..] + ys;
      JoinAppend(xs[1..], ys, c);
    }
  }

  lemma RangedKeyMatchesPattern(key: string)
    ensures IsRangedKey(key) <==> MatchesKeyPattern(key)
  {
    if IsRangedKey(key) {
      RangedKeyIsPattern(key);
    }
    if MatchesKeyPattern(key) {
      var prefix, first, last, suffix :|
        && NoLineTerminator(prefix) && AllDigits(first) && AllDigits(last) && AllAlphanumeric(suffix)
        && key == prefix + "." + first + "-" + last + "." + suffix;
      RangedKeyPieces(prefix, first, last, suffix);
    }
  }

  lemma RangedKeyIsPattern(key: string)
    requires IsRangedKey(key)
    ensures MatchesKeyPattern(key)
  {
    var parts := SplitAll(key, '.');
    var n := |parts|;
    var prefix, middle, suffix := Join(parts[..n - 2], '.'), parts[n - 2], parts[n - 1];
    var halves := SplitAll(middle, '-');
    JoinSplitAll(key, '.');
    assert parts[n - 2..] == [middle, suffix];
    assert parts == parts[..n - 2] + parts[n - 2..];
    JoinAppend(parts[..n - 2], [middle, suffix], '.');
    assert Join([middle, suffix], '.') == middle + "." + suffix;
    assert key == prefix + "." + (middle + "." + suffix);
    JoinSplitAll(middle, '-');
    assert middle == halves[0] + "-" + halves[1];
    Regroup(prefix, halves[0], halves[1], suffix);
  }

  lemma Regroup(prefix: string, first: string, last: string, suffix: string)
    ensures prefix + "." + (first + "-" + last + "." + suffix) == prefix + "." + first + "-" + last + "." + suffix
  {
  }

  /** How a key of the pattern's shape splits: the prefix's pieces, the range, the suffix. */
  lemma RangedKeyPieces(prefix: string, first: string, last: string, suffix: string)
    requires NoLineTerminator(prefix) && AllDigits(first) && AllDigits(last) && AllAlphanumeric(suffix)
    ensures var key := prefix + "." + first + "-" + last + "." + suffix;
      && SplitAll(key, '.') == SplitAll(prefix, '.') + [first + "-" + last, suffix]
      && SplitAll(first + "-" + last, '-') == [first, last]
      && IsRangedKey(key)
  {
    RangedKeyDots(prefix, first, last, suffix);
    RangeDash(first, last);
    var parts := SplitAll(prefix + "." + first + "-" + last + "." + suffix, '.');
    assert parts[..|parts| - 2] == SplitAll(prefix, '.');
    JoinSplitAll(prefix, '.');
  }

  /** The dot-separated pieces of a key of the pattern's shape. */
  lemma RangedKeyDots(prefix: string, first: string, last: string, suffix: string)
    requires AllDigits(first) && AllDigits(last) && AllAlphanumeric(suffix)
    ensures SplitAll(prefix + "." + first + "-" + last + "." + suffix, '.')
         == SplitAll(prefix, '.') + [first + "-" + last, suffix]
  {
    var middle := first + "-" + last;
    assert '.' !in first && '.' !in last by {
      assert forall i | 0 <= i < |first| :: IsDigit(first[i]);
      assert forall i | 0 <= i < |last| :: IsDigit(last[i]);
    }
    assert '.' !in suffix by {
      assert forall i | 0 <= i < |suffix| :: IsWordChar(suffix[i]);
    }
    SplitAllOfPiece(middle, '.');
    SplitAllOfPiece(suffix, '.');
    SplitAllAt(middle, suffix, '.');
    SplitAllAt(prefix, middle + "." + suffix, '.');
    assert prefix + "." + first + "-" + last + "." + suffix == prefix + ['.'] + (middle + ['.'] + suffix);
  }

  /** The dash-separated pieces of a block range. */
  lemma RangeDash(first: string, last: string)
    requires AllDigits(first) && AllDigits(last)
    ensures SplitAll(first + "-" + last, '-') == [first, last]
  {
    assert '-' !in first && '-' !in last by {
      assert forall i | 0 <= i < |first| :: IsDigit(first[i]);
      assert forall i | 0 <= i < |last| :: IsDigit(last[i]);
    }
    SplitAllOfPiece(first, '-');
    SplitAllOfPiece(last, '-');
    SplitAllAt(first, last, '-');
  }

  /** `Integer.parseInt(key.split("\\.")[n - 2].split("-")[index])`: the first (index 0) or last
      (index 1) block number written in a data file key. */
  function RangeNumber(key: string, index: nat): (r: Result<int, KeyError>)
    requires index < 2
  {
    var parts := JavaSplit(key, '.');
    if |parts| < 2 then Failure(SegmentOutOfBounds(key))
    else
      var halves := JavaSplit(parts[|parts| - 2], '-');
      if index >= |halves| then Failure(SegmentOutOfBounds(key))
      else
        match ParseInt(halves[index])
        case None => Failure(NotANumber(key))
        case Some(n) => Success(n)
  }

  /** The key `<prefix>.<first>-<last>.<suffix>` as the exporter writes it. */
  function DataFileKey(prefix: string, first: nat, last: nat, suffix: string): string {
    prefix + "." + FormatNat(first) + "-" + FormatNat(last) + "." + suffix
  }

  /** A well-formed key matches the pattern and yields both of its block numbers. */
  lemma DataFileKeyRange(prefix: string, first: nat, last: nat, suffix: string)
    requires NoLineTerminator(prefix) && AllAlphanumeric(suffix) && suffix != ""
    ensures IsRangedKey(DataFileKey(prefix, first, last, suffix))
    ensures RangeNumber(DataFileKey(prefix, first, last, suffix), 0) == Success(first)
    ensures RangeNumber(DataFileKey(prefix, first, last, suffix), 1) == Success(last)
  {
    var f, l := FormatNat(first), FormatNat(last);
    var key := DataFileKey(prefix, first, last, suffix);
    RangedKeyPieces(prefix, f, l, suffix);
    var all := SplitAll(key, '.');
    assert '.' in key by {
      assert key[|prefix|] == '.';
    }
    assert JavaSplit(key, '.') == all;
    assert all[|all| - 2] == f + "-" + l;
    assert '-' in f + "-" + l by {
      assert (f + "-" + l)[|f|] == '-';
    }
    assert JavaSplit(f + "-" + l, '-') == [f, l];
    ParseFormat(first);
    ParseFormat(last);
  }

  /**
   * `blocksInRange(key)`: false for a key that does not match the pattern (the file is skipped);
   * otherwise false when an end bound is set and the file starts after it, or a start bound is set
   * and the file ends before it. Reading the numbers can throw, since the pattern admits empty
   * digit strings and an empty suffix, which `split` then mishandles.
   */
  function BlocksInRange(startBlock: int, endBlock: int, key: string): (r: Result<bool, KeyError>)
    ensures !IsRangedKey(key) ==> r == Success(false)
  {
    if !IsRangedKey(key) then Success(false)
    else if endBlock > -1 && RangeNumber(key, 0).Failure? then RangeNumber(key, 0).PropagateFailure()
    else if endBlock > -1 && RangeNumber(key, 0).value > endBlock then Success(false)
    else if startBlock <= -1 then Success(true)
    else
      match RangeNumber(key, 1)
      case Failure(e) => Failure(e)
      case Success(last) => Success(last >= startBlock)
  }

  /** On a well-formed key, a file is fetched exactly when its range meets the window. */
  lemma BlocksInRangeOfDataFileKey(startBlock: int, endBlock: int, prefix: string, first: nat, last: nat, suffix: string)
    requires NoLineTerminator(prefix) && AllAlphanumeric(suffix) && suffix != ""
    ensures BlocksInRange(startBlock, endBlock, DataFileKey(prefix, first, last, suffix)) ==
      Success(!(endBlock > -1 && first > endBlock) && !(startBlock > -1 && last < startBlock))
  {
    DataFileKeyRange(prefix, first, last, suffix);
  }

  /**
   * A key that ends in a dot matches the pattern, but `split` then drops the empty suffix, so the
   * number is read from the piece before the range: with an end bound set this throws.
   */
  lemma BlocksInRangeThrowsOnEmptySuffix(startBlock: int, endBlock: int, name: string, first: nat, last: nat)
    requires endBlock > -1
    requires '.' !in name && '-' !in name && NoLineTerminator(name) && ParseInt(name).None?
    ensures var key := name + "." + FormatNat(first) + "-" + FormatNat(last) + ".";
      IsRangedKey(key) && BlocksInRange(startBlock, endBlock, key) == Failure(NotANumber(key))
  {
    var f, l := FormatNat(first), FormatNat(last);
    var key := name + "." + f + "-" + l + ".";
    assert key == name + "." + f + "-" + l + "." + "";
    RangedKeyPieces(name, f, l, "");
    EmptySuffixSplit(name, f, l);
    FirstNumberOfName(key, name, f + "-" + l);
  }

  /** `split` drops the empty piece after a final dot. */
  lemma EmptySuffixSplit(name: string, first: string, last: string)
    requires '.' !in name && AllDigits(first) && AllDigits(last)
    ensures JavaSplit(name + "." + first + "-" + last + ".", '.') == [name, first + "-" + last]
  {
    var key := name + "." + first + "-" + last + ".";
    assert key == name + "." + first + "-" + last + "." + "";
    var middle := first + "-" + last;
    RangedKeyDots(name, first, last, "");
    SplitAllOfPiece(name, '.');
    assert SplitAll(key, '.') == [name, middle, ""];
    assert key[|name|] == '.';
    assert middle[|first|] == '-';
    assert [name, middle, ""][..2] == [name, middle];
    assert DropTrailingEmpty([name, middle, ""]) == DropTrailingEmpty([name, middle]);
  }

  /** A key split into a name without a dash and one more piece reads its first number from the
      name, which throws when the name is not a number. */
  lemma FirstNumberOfName(key: string, name: string, range: string)
    requires JavaSplit(key, '.') == [name, range]
    requires '-' !in name && ParseInt(name).None?
    ensures RangeNumber(key, 0) == Failure(NotANumber(key))
  {
  }

  /** With an empty suffix and only a start bound set, the second number is read from the piece
      before the range, which has no dash: the index is out of bounds. */
  lemma BlocksInRangeEmptySuffixStartOnly(startBlock: int, endBlock: int, name: string, first: nat, last: nat)
    requires endBlock <= -1 && startBlock > -1
    requires '.' !in name && '-' !in name && NoLineTerminator(name)
    ensures var key := name + "." + FormatNat(first) + "-" + FormatNat(last) + ".";
      IsRangedKey(key) && BlocksInRange(startBlock, endBlock, key) == Failure(SegmentOutOfBounds(key))
  {
    var f, l := FormatNat(first), FormatNat(last);
    var key := name + "." + f + "-" + l + ".";
    assert key == name + "." + f + "-" + l + "." + "";
    RangedKeyPieces(name, f, l, "");
    EmptySuffixSplit(name, f, l);
    assert JavaSplit(name, '-') == [name];
  }

  /** With an empty suffix, a numeral before the range is read as the first block: past an end
      bound, the file is skipped without an exception. */
  lemma BlocksInRangeEmptySuffixNumeral(startBlock: int, endBlock: int, n: nat, first: nat, last: nat)
    requires endBlock > -1 && n > endBlock
    ensures var key := FormatNat(n) + "." + FormatNat(first) + "-" + FormatNat(last) + ".";
      IsRangedKey(key) && BlocksInRange(startBlock, endBlock, key) == Success(false)
  {
    var name := FormatNat(n);
    var f, l := FormatNat(first), FormatNat(last);
    var key := name + "." + f + "-" + l + ".";
    assert '.' !in name && '-' !in name && NoLineTerminator(name) by {
      assert forall i | 0 <= i < |name| :: IsDigit(name[i]);
    }
    EmptySuffixKey(name, f, l);
    EmptySuffixSplit(name, f, l);
    ParseFormat(n);
    FirstNumberIsName(key, name, f + "-" + l);
  }

  /** A key that ends in a dot matches the pattern. */
  lemma EmptySuffixKey(name: string, first: string, last: string)
    requires NoLineTerminator(name) && AllDigits(first) && AllDigits(last)
    ensures IsRangedKey(name + "." + first + "-" + last + ".")
  {
    assert name + "." + first + "-" + last + "." == name + "." + first + "-" + last + "." + "";
    RangedKeyPieces(name, first, last, "");
  }

  /** A key split into a name without a dash and one more piece reads its first number from the
      name. */
  lemma FirstNumberIsName(key: string, name: string, range: string)
    requires JavaSplit(key, '.') == [name, range]
    requires '-' !in name && ParseInt(name).Some?
    ensures RangeNumber(key, 0) == Success(ParseInt(name).value)
  {
    assert JavaSplit(name, '-') == [name];
  }

  // ---------------------------------------------------------------------------------------------
  // Manifest block ranges

  /** `ManifestStruct`: a manifest path with the block range its data files cover. */
  datatype ManifestStruct = ManifestStruct(path: string, firstBlock: int, lastBlock: int)

  /**
   * `getManifestBlockRange` once the manifest's key list is read: nothing for an empty list;
   * otherwise the first number of the first key and the last number of the last key.
   */
  function ManifestBlockRange(path: string, keys: seq<string>): (r: Result<Option<ManifestStruct>, KeyError>)
    ensures keys == [] ==> r == Success(None)
    ensures r.Success? && r.value.Some? ==> r.value.value.path == path
  {
    if keys == [] then Success(None)
    else
      match RangeNumber(keys[0], 0)
      case Failure(e) => Failure(e)
      case Success(first) =>
        match RangeNumber(keys[|keys| - 1], 1)
        case Failure(e) => Failure(e)
        case Success(last) => Success(Some(ManifestStruct(path, first, last)))
  }

  /** A manifest of well-formed keys spans from its first key's first block to its last key's last. */
  lemma ManifestBlockRangeOfDataFileKeys(path: string, keys: seq<string>,
                                         prefix0: string, suffix0: string, first0: nat, last0: nat,
                                         prefixN: string, suffixN: string, firstN: nat, lastN: nat)
    requires NoLineTerminator(prefix0) && AllAlphanumeric(suffix0) && suffix0 != ""
    requires NoLineTerminator(prefixN) && AllAlphanumeric(suffixN) && suffixN != ""
    requires |keys| >= 1
    requires keys[0] == DataFileKey(prefix0, first0, last0, suffix0)
    requires keys[|keys| - 1] == DataFileKey(prefixN, firstN, lastN, suffixN)
    ensures ManifestBlockRange(path, keys) == Success(Some(ManifestStruct(path, first0, lastN)))
  {
    DataFileKeyRange(prefix0, first0, last0, suffix0);
    DataFileKeyRange(prefixN, firstN, lastN, suffixN);
  }
}
