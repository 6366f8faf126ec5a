/** Collection: one entry of the collection manager's configuration, read from its
    mapping form, and the questions asked of it: where its granules are stored and
    whether it owns a file. */
module Collection {
  import opened Wrappers
  import opened Values
  import opened Text

  /** The exceptions `from_dict` lets out. */
  datatype CollectionError =
    | MissingValue(key: string)        // MissingValueCollectionError for a missing required key
    | BothVariableKeys                 // RuntimeError: both `variable` and `variables`
    | VariableNotString(value: Value)  // RuntimeError: `variable` is not a string
    | VariablesNotList(value: Value)   // RuntimeError: `variables` is not a list
    | NoVariableKey                    // TypeError: `frozenset(None)` when neither key is there
    | NotAMapping(key: string)         // the value under `key` is not a mapping
    | UnhashableValue(key: string)     // TypeError: `frozenset` of pairs holding a list or mapping
    | BadDate(key: string)             // ValueError from `datetime.fromisoformat`

  datatype StorageType = Local | S3

  /** The frozen dataclass. Its fields hold what the mapping held; the dates are the
      parsed instants. */
  datatype Collection = Collection(
    datasetId: Value,
    projection: Value,
    dimensionNames: set<(string, Value)>,
    slices: set<(string, Value)>,
    path: Value,
    historicalPriority: Value,
    forwardProcessingPriority: Option<Value>,
    dateFrom: Option<int>,
    dateTo: Option<int>)

  /** The dimension names other than the two variable keys, as key and value pairs. */
  function OtherNames(d: map<string, Value>): set<(string, Value)>
  {
    set k | k in d && k != "variable" && k != "variables" :: (k, d[k])
  }

  /** `__decode_dimension_names`: the two variable keys exclude each other; the one
      present must be a string (`variable`) or a list (`variables`) and is stored, JSON
      encoded, under `variable`; every other pair is kept. With neither key the result
      is `None`. */
  function DecodeDimensionNames(d: map<string, Value>, codec: Codec): (r: Result<Option<set<(string, Value)>>, CollectionError>)
    ensures "variable" in d && "variables" in d ==> r == Failure(BothVariableKeys)
    ensures "variable" in d && "variables" !in d ==>
              if d["variable"].VStr? then r == Success(Some(OtherNames(d) + {("variable", VStr(codec.dumps(d["variable"])))}))
              else r == Failure(VariableNotString(d["variable"]))
    ensures "variables" in d && "variable" !in d ==>
              if d["variables"].VList? then r == Success(Some(OtherNames(d) + {("variable", VStr(codec.dumps(d["variables"])))}))
              else r == Failure(VariablesNotList(d["variables"]))
    ensures "variable" !in d && "variables" !in d ==> r == Success(None)
  {
    if "variable" in d && "variables" in d then Failure(BothVariableKeys)
    else if "variable" in d then
      if !d["variable"].VStr? then Failure(VariableNotString(d["variable"]))
      else Success(Some(OtherNames(d) + {("variable", VStr(codec.dumps(d["variable"])))}))
    else if "variables" in d then
      if !d["variables"].VList? then Failure(VariablesNotList(d["variables"]))
      else Success(Some(OtherNames(d) + {("variable", VStr(codec.dumps(d["variables"])))}))
    else Success(None)
  }

  /** The decoded names hold every pair of the input other than the variable keys,
      unchanged, and one `variable` pair with the JSON text; nothing else. */
  lemma DecodedNamesContents(d: map<string, Value>, codec: Codec)
    requires DecodeDimensionNames(d, codec).Success? && DecodeDimensionNames(d, codec).value.Some?
    ensures var names := DecodeDimensionNames(d, codec).value.value;
            var v := if "variable" in d then d["variable"] else d["variables"];
            (forall k :: k in d && k != "variable" && k != "variables" ==> (k, d[k]) in names) &&
            ("variable" in d || "variables" in d) &&
            (forall p :: p in names ==>
               p.0 != "variables" &&
               (p.0 == "variable" ==> p.1 == VStr(codec.dumps(v))) &&
               (p.0 != "variable" ==> p.0 in d && d[p.0] == p.1)) &&
            ("variable", VStr(codec.dumps(v))) in names
  {
  }

  /** A date key: absent is `None`, present must parse. `fromIso` is
      `datetime.fromisoformat`, yielding None where it raises. */
  function OptionalDate(props: map<string, Value>, key: string, fromIso: Value -> Option<int>): (r: Result<Option<int>, CollectionError>)
    ensures key !in props ==> r == Success(None)
    ensures key in props ==> if fromIso(props[key]).Some? then r == Success(Some(fromIso(props[key]).value))
                             else r == Failure(BadDate(key))
  {
    if key !in props then Success(None)
    else if fromIso(props[key]).None? then Failure(BadDate(key))
    else Success(Some(fromIso(props[key]).value))
  }

  /** A required key; a missing one becomes MissingValueCollectionError. */
  function Required(props: map<string, Value>, key: string): (r: Result<Value, CollectionError>)
    ensures key in props <==> r.Success?
    ensures r.Success? ==> r.value == props[key]
    ensures r.Failure? ==> r.error == MissingValue(key)
  {
    if key in props then Success(props[key]) else Failure(MissingValue(key))
  }

  /** `frozenset` of key and value pairs: every value must be hashable. */
  function Freeze(pairs: set<(string, Value)>, key: string): (r: Result<set<(string, Value)>, CollectionError>)
    ensures r.Success? <==> forall p :: p in pairs ==> Hashable(p.1)
    ensures r.Success? ==> r.value == pairs
    ensures r.Failure? ==> r.error == UnhashableValue(key)
  {
    if forall p :: p in pairs ==> Hashable(p.1) then Success(pairs) else Failure(UnhashableValue(key))
  }

  /** The `dimensionNames` argument of `from_dict`: looked up, decoded, then frozen. */
  function FrozenNames(props: map<string, Value>, codec: Codec): Result<set<(string, Value)>, CollectionError>
  {
    var dimensionNames :- Required(props, "dimensionNames");
    var decoded :- if dimensionNames.VDict? then DecodeDimensionNames(dimensionNames.entries, codec)
                   else Failure(NotAMapping("dimensionNames"));
    var decodedNames :- if decoded.Some? then Success(decoded.value) else Failure(NoVariableKey);
    Freeze(decodedNames, "dimensionNames")
  }

  /** The `slices` argument of `from_dict`: looked up, then frozen. */
  function FrozenSlices(props: map<string, Value>): Result<set<(string, Value)>, CollectionError>
  {
    var slices :- Required(props, "slices");
    if slices.VDict? then Freeze(set k | k in slices.entries :: (k, slices.entries[k]), "slices")
    else Failure(NotAMapping("slices"))
  }

  /** `from_dict`: the work in Python's order of evaluation: `to`, `from`, then the
      constructor's arguments `id`, `projection`, `dimensionNames` (decoded and frozen
      at once), `slices`, `path`, `priority`; `forward-processing-priority` is
      optional, and `get` gives None for it both when it is absent and when it is
      null. */
  function FromDict(props: map<string, Value>, codec: Codec, fromIso: Value -> Option<int>): Result<Collection, CollectionError>
  {
    var dateTo :- OptionalDate(props, "to", fromIso);
    var dateFrom :- OptionalDate(props, "from", fromIso);
    var id :- Required(props, "id");
    var projection :- Required(props, "projection");
    var names :- FrozenNames(props, codec);
    var slicePairs :- FrozenSlices(props);
    var path :- Required(props, "path");
    var priority :- Required(props, "priority");
    var forward := if "forward-processing-priority" in props && !props["forward-processing-priority"].VNull?
                   then Some(props["forward-processing-priority"]) else None;
    Success(Collection(id, projection, names, slicePairs, path, priority, forward, dateFrom, dateTo))
  }

  /** The required keys, in the order they are looked up. */
  const RequiredKeys := ["id", "projection", "dimensionNames", "slices", "path", "priority"]

  /** A missing-value error always names a required key that is missing. With the
      dates parsing, the error is the first required key that is missing, in the
      order the constructor's arguments are evaluated, once the arguments before it
      have been built. */
  lemma FromDictMissingValue(props: map<string, Value>, codec: Codec, fromIso: Value -> Option<int>)
    ensures var r := FromDict(props, codec, fromIso);
            r.Failure? && r.error.MissingValue? ==> r.error.key in RequiredKeys && r.error.key !in props
    ensures var r := FromDict(props, codec, fromIso);
            OptionalDate(props, "to", fromIso).Success? && OptionalDate(props, "from", fromIso).Success? ==>
              ("id" !in props ==> r == Failure(MissingValue("id"))) &&
              ("id" in props && "projection" !in props ==> r == Failure(MissingValue("projection"))) &&
              ("id" in props && "projection" in props && "dimensionNames" !in props ==>
                 r == Failure(MissingValue("dimensionNames"))) &&
              ("id" in props && "projection" in props && FrozenNames(props, codec).Success? ==>
                 ("slices" !in props ==> r == Failure(MissingValue("slices"))) &&
                 (FrozenSlices(props).Success? ==>
                    ("path" !in props ==> r == Failure(MissingValue("path"))) &&
                    ("path" in props && "priority" !in props ==> r == Failure(MissingValue("priority")))))
  {
  }

  /** The dimension names, once decoded, freeze exactly when the pairs other than the
      variable keys hold hashable values: the `variable` pair holds text. */
  lemma FrozenNamesResult(props: map<string, Value>, codec: Codec)
    requires "dimensionNames" in props && props["dimensionNames"].VDict?
    requires DecodeDimensionNames(props["dimensionNames"].entries, codec).Success?
    requires DecodeDimensionNames(props["dimensionNames"].entries, codec).value.Some?
    ensures var dn := props["dimensionNames"].entries;
            FrozenNames(props, codec) ==
              if forall k :: k in dn && k != "variable" && k != "variables" ==> Hashable(dn[k])
              then Success(DecodeDimensionNames(dn, codec).value.value)
              else Failure(UnhashableValue("dimensionNames"))
  {
    var dn := props["dimensionNames"].entries;
    var names := DecodeDimensionNames(dn, codec).value.value;
    DecodedNamesContents(dn, codec);
    if !(forall j :: j in dn && j != "variable" && j != "variables" ==> Hashable(dn[j])) {
      var j :| j in dn && j != "variable" && j != "variables" && !Hashable(dn[j]);
      assert (j, dn[j]) in names;
    }
  }

  /** The slices freeze exactly when every value is hashable. */
  lemma FrozenSlicesResult(props: map<string, Value>)
    requires "slices" in props && props["slices"].VDict?
    ensures var sl := props["slices"].entries;
            FrozenSlices(props) ==
              if forall k :: k in sl ==> Hashable(sl[k])
              then Success(set k | k in sl :: (k, sl[k]))
              else Failure(UnhashableValue("slices"))
  {
    var sl := props["slices"].entries;
    if !(forall k :: k in sl ==> Hashable(sl[k])) {
      var k :| k in sl && !Hashable(sl[k]);
      assert (k, sl[k]) in (set j | j in sl :: (j, sl[j]));
    }
  }

  /** A well-formed mapping gives the collection of its values: the decoded dimension
      names, the pairs of the slices, and `None` for each optional key that is absent. */
  lemma FromDictSucceeds(props: map<string, Value>, codec: Codec, fromIso: Value -> Option<int>)
    requires "id" in props && "projection" in props && "dimensionNames" in props
    requires "slices" in props && "path" in props && "priority" in props
    requires "to" in props ==> fromIso(props["to"]).Some?
    requires "from" in props ==> fromIso(props["from"]).Some?
    requires props["dimensionNames"].VDict? && props["slices"].VDict?
    requires var dn := props["dimensionNames"].entries;
             ("variable" in dn) != ("variables" in dn) &&
             ("variable" in dn ==> dn["variable"].VStr?) && ("variables" in dn ==> dn["variables"].VList?)
    requires var dn := props["dimensionNames"].entries;
             forall k :: k in dn && k != "variable" && k != "variables" ==> Hashable(dn[k])
    requires forall k :: k in props["slices"].entries ==> Hashable(props["slices"].entries[k])
    ensures var sl := props["slices"].entries;
            FromDict(props, codec, fromIso) == Success(Collection(
              props["id"], props["projection"],
              DecodeDimensionNames(props["dimensionNames"].entries, codec).value.value,
              set k | k in sl :: (k, sl[k]),
              props["path"], props["priority"],
              if "forward-processing-priority" in props && !props["forward-processing-priority"].VNull?
              then Some(props["forward-processing-priority"]) else None,
              if "from" in props then Some(fromIso(props["from"]).value) else None,
              if "to" in props then Some(fromIso(props["to"]).value) else None))
  {
    FrozenNamesResult(props, codec);
    FrozenSlicesResult(props);
  }

  /** A list or mapping among the `slices` values makes `frozenset` raise TypeError, as
      for `slices: {"time": [0, 1]}`; so does one among the other dimension names,
      which are frozen first. */
  lemma FromDictUnhashable(props: map<string, Value>, codec: Codec, fromIso: Value -> Option<int>)
    requires "id" in props && "projection" in props && "dimensionNames" in props && "slices" in props
    requires OptionalDate(props, "to", fromIso).Success? && OptionalDate(props, "from", fromIso).Success?
    requires props["dimensionNames"].VDict? && props["slices"].VDict?
    requires DecodeDimensionNames(props["dimensionNames"].entries, codec).Success?
    requires DecodeDimensionNames(props["dimensionNames"].entries, codec).value.Some?
    requires exists k :: k in props["slices"].entries && !Hashable(props["slices"].entries[k])
    ensures var dn := props["dimensionNames"].entries;
            FromDict(props, codec, fromIso) ==
              if forall k :: k in dn && k != "variable" && k != "variables" ==> Hashable(dn[k])
              then Failure(UnhashableValue("slices"))
              else Failure(UnhashableValue("dimensionNames"))
  {
    FrozenNamesResult(props, codec);
    FrozenSlicesResult(props);
  }

  /** Dimension names with neither variable key make `frozenset(None)` fail. */
  lemma FromDictNeedsVariable(props: map<string, Value>, codec: Codec, fromIso: Value -> Option<int>)
    requires OptionalDate(props, "to", fromIso).Success? && OptionalDate(props, "from", fromIso).Success?
    requires "id" in props && "projection" in props && "dimensionNames" in props
    requires props["dimensionNames"].VDict?
    requires "variable" !in props["dimensionNames"].entries && "variables" !in props["dimensionNames"].entries
    ensures FromDict(props, codec, fromIso) == Failure(NoVariableKey)
  {
  }

  predicate IsAsciiLetter(c: char)
  {
    'a' <= c <= 'z' || 'A' <= c <= 'Z'
  }

  /** The characters a URL scheme may hold. */
  predicate IsSchemeChar(c: char)
  {
    IsAsciiLetter(c) || IsDigit(c) || c == '+' || c == '-' || c == '.'
  }

  /** The lower case `urlsplit` applies to a scheme: ASCII capitals only, as a scheme
      holds only ASCII letters, digits and `+-.`. */
  function AsciiLower(c: char): char
  {
    if 'A' <= c <= 'Z' then (c as int + 32) as char else c
  }

  /** The index of the first `c` in `s`, or `|s|` when there is none. */
  function IndexOf(s: string, c: char): (i: nat)
    ensures i <= |s| && c !in s[..i] && (i < |s| ==> s[i] == c)
  {
    if s == [] then 0
    else if s[0] == c then 0
    else 1 + IndexOf(s[1..], c)
  }

  /** The C0 control characters and the space, which `urlsplit` strips from the front. */
  predicate IsC0OrSpace(c: char)
  {
    c as int <= 32
  }

  /** `url.lstrip` of the C0 controls and the space. */
  function LStripC0(url: string): (r: string)
    ensures |r| <= |url| && (r != [] ==> !IsC0OrSpace(r[0]))
  {
    if url != [] && IsC0OrSpace(url[0]) then LStripC0(url[1..]) else url
  }

  /** Tab, carriage return and line feed, which `urlsplit` deletes wherever they are. */
  predicate IsUnsafe(c: char)
  {
    c == '\t' || c == '\r' || c == '\n'
  }

  /** `url.replace(b, "")` for each of tab, carriage return and line feed. */
  function RemoveUnsafe(url: string): (r: string)
    ensures forall k :: 0 <= k < |r| ==> !IsUnsafe(r[k])
  {
    if url == [] then []
    else if IsUnsafe(url[0]) then RemoveUnsafe(url[1..])
    else [url[0]] + RemoveUnsafe(url[1..])
  }

  /** The text `urlsplit` looks for a scheme in. */
  function Clean(url: string): string
  {
    RemoveUnsafe(LStripC0(url))
  }

  /** The scheme of cleaned text: the text before the first ':', lower-cased, when it
      is not empty, starts with a letter and is made of scheme characters; empty
      otherwise. */
  function SplitScheme(url: string): string
  {
    var i := IndexOf(url, ':');
    if 0 < i < |url| && IsAsciiLetter(url[0]) && (forall k :: 0 <= k < i ==> IsSchemeChar(url[k]))
    then seq(i, k requires 0 <= k < i => AsciiLower(url[k]))
    else ""
  }

  /** `urlparse(url).scheme`, as current Python 3 computes it: leading C0 controls and
      spaces are stripped and tabs and line breaks deleted before the scheme is split
      off. */
  function Scheme(url: string): string
  {
    SplitScheme(Clean(url))
  }

  /** `storage_type`. */
  function GetStorageType(c: Collection): StorageType
    requires c.path.VStr?
  {
    if Scheme(c.path.s) == "s3" then S3 else Local
  }

  /** A collection is on S3 exactly when its path, once cleaned, begins with `s3:` in
      either case. */
  lemma StorageTypeIffS3Prefix(c: Collection)
    requires c.path.VStr?
    ensures var p := Clean(c.path.s);
            GetStorageType(c) == S3 <==> |p| >= 3 && (p[0] == 's' || p[0] == 'S') && p[1] == '3' && p[2] == ':'
  {
    var p := Clean(c.path.s);
    var i := IndexOf(p, ':');
    if GetStorageType(c) == S3 {
      assert |SplitScheme(p)| == 2 && i == 2;
      assert SplitScheme(p)[0] == AsciiLower(p[0]) && SplitScheme(p)[1] == AsciiLower(p[1]);
      assert "s3"[0] == 's' && "s3"[1] == '3';
    }
    if |p| >= 3 && (p[0] == 's' || p[0] == 'S') && p[1] == '3' && p[2] == ':' {
      assert p[0] != ':' && p[1] != ':';
      assert IndexOf(p[1..], ':') == 1 by {
        assert p[1..][0] == '3' && p[1..][1] == ':';
        assert IndexOf(p[1..][1..], ':') == 0;
      }
      assert i == 2;
      assert SplitScheme(p) == [AsciiLower(p[0]), AsciiLower(p[1])];
    }
  }

  lemma S3ColonScheme()
    ensures SplitScheme("s3:") == "s3"
  {
    assert IndexOf("s3:", ':') == 2 by {
      assert "s3:"[1..] == "3:" && "3:"[1..] == ":";
    }
  }

  lemma CleanS3Colon()
    ensures RemoveUnsafe("s3:") == "s3:"
  {
    assert RemoveUnsafe(":") == ":" by {
      assert ":"[1..] == [];
    }
    assert RemoveUnsafe("3:") == "3:" by {
      assert "3:"[1..] == ":";
    }
    assert "s3:"[1..] == "3:";
  }

  /** A path with a leading space is still on S3, such as " s3://bucket/x": `urlsplit`
      strips the space first. */
  lemma LeadingSpaceS3(rest: string)
    ensures Scheme(" s3:" + rest) == "s3"
  {
    assert LStripC0(" s3:") == "s3:" by {
      assert " s3:"[1..] == "s3:";
      assert IsC0OrSpace(' ') && !IsC0OrSpace('s');
    }
    CleanS3Colon();
    S3ColonScheme();
    assert ':' in Clean(" s3:") by {
      assert Clean(" s3:")[2] == ':';
    }
    SchemeAppend(" s3:", rest);
  }

  /** A line feed inside the scheme is deleted before the scheme is read, so
      "s\n3://bucket/x" is on S3. */
  lemma LineFeedInSchemeS3(rest: string)
    ensures Scheme("s\n3:" + rest) == "s3"
  {
    assert LStripC0("s\n3:") == "s\n3:" by {
      assert !IsC0OrSpace('s');
    }
    assert RemoveUnsafe("s\n3:") == "s3:" by {
      CleanS3Colon();
      assert "s\n3:"[1..] == "\n3:" && "\n3:"[1..] == "3:";
      assert RemoveUnsafe("\n3:") == "3:";
    }
    S3ColonScheme();
    assert ':' in Clean("s\n3:") by {
      assert Clean("s\n3:")[2] == ':';
    }
    SchemeAppend("s\n3:", rest);
  }

  lemma {:induction false} LStripAppend(s: string, rest: string)
    requires LStripC0(s) != []
    ensures LStripC0(s + rest) == LStripC0(s) + rest
  {
    if IsC0OrSpace(s[0]) {
      assert (s + rest)[1..] == s[1..] + rest;
      LStripAppend(s[1..], rest);
    }
  }

  lemma {:induction false} RemoveUnsafeAppend(s: string, rest: string)
    ensures RemoveUnsafe(s + rest) == RemoveUnsafe(s) + RemoveUnsafe(rest)
  {
    if s == [] {
      assert s + rest == rest;
    } else {
      assert (s + rest)[0] == s[0] && (s + rest)[1..] == s[1..] + rest;
      RemoveUnsafeAppend(s[1..], rest);
    }
  }

  lemma SplitSchemeAppend(s: string, rest: string)
    requires ':' in s
    ensures SplitScheme(s + rest) == SplitScheme(s)
  {
    IndexOfPrefix(s, rest, ':');
    var i := IndexOf(s, ':');
    assert forall k :: 0 <= k <= i ==> (s + rest)[k] == s[k];
  }

  /** Once the text before some ':' is there, what follows does not change the scheme. */
  lemma SchemeAppend(s: string, rest: string)
    requires ':' in Clean(s)
    ensures Scheme(s + rest) == Scheme(s)
  {
    assert LStripC0(s) != [];
    LStripAppend(s, rest);
    RemoveUnsafeAppend(LStripC0(s), rest);
    SplitSchemeAppend(Clean(s), RemoveUnsafe(rest));
  }

  /** `str.find(sub) == 0`: the first occurrence of `sub` is at the start. */
  function FindIsZero(s: string, sub: string): bool
  {
    |sub| <= |s| && s[..|sub|] == sub
  }

  /** `owns_file`. For a file on S3 the collection owns it when its path is where the
      file path begins. For a local file the answer depends on the filesystem and is
      not modelled: None. */
  function OwnsFile(c: Collection, filePath: string): (r: Option<bool>)
    requires c.path.VStr?
    ensures r.Some? <==> Scheme(filePath) == "s3"
    ensures r.Some? ==> (r.value <==> StartsWith(filePath, c.path.s))
  {
    if Scheme(filePath) == "s3" then Some(FindIsZero(filePath, c.path.s)) else None
  }

  /** An S3 collection owns every file whose path extends its own: the test is on the
      text of the path alone. */
  lemma OwnsFileUnderPath(c: Collection, rest: string)
    requires c.path.VStr? && GetStorageType(c) == S3
    ensures OwnsFile(c, c.path.s + rest) == Some(true)
  {
    var p := c.path.s;
    StorageTypeIffS3Prefix(c);
    assert Clean(p)[2] == ':';
    SchemeAppend(p, rest);
    assert (p + rest)[..|p|] == p;
  }

  /** The first `c` of a text that holds one does not move when text is appended. */
  lemma {:induction false} IndexOfPrefix(s: string, rest: string, c: char)
    requires c in s
    ensures IndexOf(s + rest, c) == IndexOf(s, c)
  {
    if s[0] != c {
      assert (s + rest)[1..] == s[1..] + rest;
      IndexOfPrefix(s[1..], rest, c);
    }
  }
}
