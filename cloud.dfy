/**
 * The cloud loader's string handling: how `load_from_google_drive` turns
 * what the user pasted (a Sheets URL, a Drive URL or a bare id) into a
 * file id and a download URL, when it retries in the Drive format, and
 * which secrets `load_cloud_data` reads its files from.  The downloads
 * themselves are a parameter.
 */
module Cloud {
  import opened Wrappers
  import Text

  // ------------------------------------------------------------ Python's str methods

  /** The characters `str.strip()` removes (the ASCII whitespace). */
  predicate IsSpace(c: char)
  {
    c == ' ' || c == '\t' || c == '\n' || c == '\r' || c == '\U{B}' || c == '\U{C}'
  }

  predicate IsDashOrSlash(c: char)
  {
    c == '-' || c == '/'
  }

  /** `s.rstrip(chars)`: the longest prefix not ending in a dropped character. */
  function TrimEnd(s: string, drop: char -> bool): (r: string)
    ensures |r| <= |s| && r == s[..|r|]
    ensures |r| == 0 || !drop(r[|r| - 1])
    ensures forall i :: |r| <= i < |s| ==> drop(s[i])
  {
    if |s| == 0 || !drop(s[|s| - 1]) then s
    else TrimEnd(s[..|s| - 1], drop)
  }

  /** `s.lstrip(chars)` */
  function TrimStart(s: string, drop: char -> bool): (r: string)
    ensures |r| <= |s| && r == s[|s| - |r|..]
    ensures |r| == 0 || !drop(r[0])
    ensures forall i :: 0 <= i < |s| - |r| ==> drop(s[i])
  {
    if |s| == 0 || !drop(s[0]) then s
    else TrimStart(s[1..], drop)
  }

  /** `s` is `r` preceded by `a` whitespace characters and followed by whitespace only. */
  predicate PaddedBy(s: string, r: string, a: int)
  {
    0 <= a <= |s| - |r| && r == s[a..a + |r|] &&
    (forall i :: 0 <= i < a ==> IsSpace(s[i])) &&
    (forall i :: a + |r| <= i < |s| ==> IsSpace(s[i]))
  }

  /**
   * `s.strip()`: a contiguous piece of `s` that neither starts nor ends with
   * whitespace, with only whitespace before and after it in `s`.
   */
  function Strip(s: string): (r: string)
    ensures |r| <= |s|
    ensures |r| == 0 || (!IsSpace(r[0]) && !IsSpace(r[|r| - 1]))
    ensures exists a :: PaddedBy(s, r, a)
  {
    var e := TrimEnd(s, IsSpace);
    StripPadded(s, e);
    TrimStart(e, IsSpace)
  }

  lemma StripPadded(s: string, e: string)
    requires e == TrimEnd(s, IsSpace)
    ensures PaddedBy(s, TrimStart(e, IsSpace), |e| - |TrimStart(e, IsSpace)|)
  {
    var r := TrimStart(e, IsSpace);
    var a := |e| - |r|;
    assert e == s[..|e|];
    assert r == e[a..];
    assert r == s[a..|e|];
    forall i | 0 <= i < a ensures IsSpace(s[i]) {
      assert e[i] == s[i];
    }
  }

  /** Stripping what is already stripped changes nothing. */
  lemma StripIdempotent(s: string)
    ensures Strip(Strip(s)) == Strip(s)
  {
    var r := Strip(s);
    if |r| > 0 {
      assert TrimEnd(r, IsSpace) == r;
      assert TrimStart(r, IsSpace) == r;
    }
  }

  /** `sep` occurs in `s` at index `j`. */
  predicate MatchAt(s: string, sep: string, j: int)
  {
    0 <= j && j + |sep| <= |s| && s[j..j + |sep|] == sep
  }

  /** The first index from `from` on at which `sep` occurs in `s`. */
  function FindFrom(s: string, sep: string, from: nat): (r: Option<nat>)
    requires |sep| > 0 && from <= |s|
    ensures r.Some? ==> from <= r.value && MatchAt(s, sep, r.value)
    ensures r.Some? ==> forall j :: from <= j < r.value ==> !MatchAt(s, sep, j)
    ensures r.None? ==> forall j :: from <= j ==> !MatchAt(s, sep, j)
    decreases |s| - from
  {
    if from + |sep| > |s| then None
    else if MatchAt(s, sep, from) then Some(from)
    else FindFrom(s, sep, from + 1)
  }

  /** `s.find(sep)`, None for -1. */
  function Find(s: string, sep: string): (r: Option<nat>)
    requires |sep| > 0
    ensures r.Some? ==> MatchAt(s, sep, r.value)
    ensures r.Some? ==> forall j :: 0 <= j < r.value ==> !MatchAt(s, sep, j)
    ensures r.None? ==> forall j :: !MatchAt(s, sep, j)
  {
    FindFrom(s, sep, 0)
  }

  /** `sep in s` */
  predicate Contains(s: string, sep: string)
    requires |sep| > 0
  {
    Find(s, sep).Some?
  }

  /** `s.split(sep)[0]`: the text before the first `sep`, or all of `s`. */
  function Before(s: string, sep: string): (r: string)
    requires |sep| > 0
    ensures |r| <= |s| && r == s[..|r|]
  {
    var k := Find(s, sep);
    if k.None? then s else s[..k.value]
  }

  /** `s.split(sep)[1]`: the text between the first `sep` and the next one (or the end). */
  function Segment(s: string, sep: string): string
    requires |sep| > 0 && Contains(s, sep)
  {
    var k := Find(s, sep).value;
    Before(s[k + |sep|..], sep)
  }

  /** The text after the first `sep`. */
  function AfterFirst(s: string, sep: string): string
    requires |sep| > 0 && Contains(s, sep)
  {
    s[Find(s, sep).value + |sep|..]
  }

  /** Cutting at a character keeps a prefix free of it, stopping at the character itself or at the end. */
  lemma CutChar(x: string, c: char)
    ensures var r := Before(x, [c]);
            r == x[..|r|] && c !in r && (|r| < |x| ==> x[|r|] == c)
  {
    BeforeCharFree(x, c);
    var k := Find(x, [c]);
    if k.Some? {
      assert x[k.value..k.value + 1][0] == x[k.value];
    }
  }

  /** Cutting at `/d/` stops at a `/` or at the end. */
  lemma CutPath(x: string)
    ensures var r := Before(x, "/d/");
            r == x[..|r|] && (|r| < |x| ==> x[|r|] == '/')
  {
    var k := Find(x, "/d/");
    if k.Some? {
      assert x[k.value..k.value + 3][0] == x[k.value];
      assert "/d/"[0] == '/';
    }
  }

  /** Cutting at a character leaves no such character behind. */
  lemma BeforeCharFree(s: string, c: char)
    ensures c !in Before(s, [c])
  {
    var r := Before(s, [c]);
    forall i | 0 <= i < |r| ensures r[i] != c {
      assert !MatchAt(s, [c], i);
      assert s[i..i + 1] == [s[i]];
    }
  }

  // ------------------------------------------------------------ ids and URLs

  const SheetsPrefix := "https://docs.google.com/spreadsheets/d/"
  const SheetsSuffix := "/export?format=xlsx"
  const DrivePrefix := "https://drive.google.com/uc?id="
  const DriveSuffix := "&export=download"

  function SheetsUrl(id: string): string
  {
    SheetsPrefix + id + SheetsSuffix
  }

  function DriveUrl(id: string): string
  {
    DrivePrefix + id + DriveSuffix
  }

  /** The file id `load_from_google_drive` settles on and the URL it requests first. */
  datatype Target = Target(id: string, url: string)

  /** The id of a Sheets URL: after `/d/`, cut at `/`, `?` and `&`, trailing `-` and `/` removed. */
  function SheetsId(s: string): string
    requires Contains(s, "/d/")
  {
    TrimEnd(Before(Before(Before(Segment(s, "/d/"), "/"), "?"), "&"), IsDashOrSlash)
  }

  /** The id of a Drive URL: the path segment after `/d/`, else the `id=` parameter, else the URL. */
  function DriveId(s: string): string
  {
    if Contains(s, "/d/") then Before(Segment(s, "/d/"), "/")
    else if Contains(s, "id=") then Before(Segment(s, "id="), "&")
    else s
  }

  /** The id and first URL for an input whose surrounding whitespace is already stripped. */
  function TargetOf(s: string): Target
  {
    if Text.StartsWith(s, "http") then
      if Contains(s, "spreadsheets") then
        var id := if Contains(s, "/d/") then SheetsId(s) else s;
        Target(id, SheetsUrl(id))
      else
        var id := DriveId(s);
        Target(id, DriveUrl(id))
    else
      var id := Strip(TrimEnd(s, IsDashOrSlash));
      Target(id, SheetsUrl(id))
  }

  /** The id and first URL, from the input with its surrounding whitespace stripped. */
  function FileTarget(input: string): Target
  {
    TargetOf(Strip(input))
  }

  /** Whitespace around the input makes no difference: it is stripped before anything else. */
  lemma FileTargetStripsFirst(input: string)
    ensures FileTarget(Strip(input)) == FileTarget(input)
  {
    StripIdempotent(input);
    assert FileTarget(Strip(input)) == TargetOf(Strip(Strip(input)));
  }

  /**
   * `id` is how `rest` begins, `e` is where `rest` is first cut at `/`, `?`
   * or `&` (or its end), and only dashes and slashes lie between the two.
   */
  predicate CutAt(rest: string, id: string, e: int)
  {
    |id| <= e <= |rest| && id == rest[..|id|] &&
    (forall i :: 0 <= i < e ==> rest[i] != '/' && rest[i] != '?' && rest[i] != '&') &&
    (e < |rest| ==> rest[e] == '/' || rest[e] == '?' || rest[e] == '&') &&
    (forall i :: |id| <= i < e ==> IsDashOrSlash(rest[i]))
  }

  /**
   * A Sheets URL with `/d/` gives as id the text after the first `/d/` up to
   * the first `/`, `?` or `&`, less the dashes and slashes that end it, and
   * the xlsx export URL for it.
   */
  lemma SheetsTarget(input: string)
    requires var s := Strip(input);
             Text.StartsWith(s, "http") && Contains(s, "spreadsheets") && Contains(s, "/d/")
    ensures var t := FileTarget(input);
            '/' !in t.id && '?' !in t.id && '&' !in t.id &&
            (|t.id| == 0 || !IsDashOrSlash(t.id[|t.id| - 1])) &&
            t.url == SheetsUrl(t.id)
    ensures exists e :: CutAt(AfterFirst(Strip(input), "/d/"), FileTarget(input).id, e)
  {
    var s := Strip(input);
    var rest := AfterFirst(s, "/d/");
    var c := FirstCut(rest);
    SheetsIdIsCut(s);
    assert FileTarget(input).id == TrimEnd(c, IsDashOrSlash);
    FirstCutStops(rest);
    TrimmedCut(rest, c);
    CutAtFree(rest, TrimEnd(c, IsDashOrSlash), |c|);
  }

  lemma SheetsIdIsCut(s: string)
    requires Contains(s, "/d/")
    ensures SheetsId(s) == TrimEnd(FirstCut(AfterFirst(s, "/d/")), IsDashOrSlash)
  {
    assert Segment(s, "/d/") == Before(AfterFirst(s, "/d/"), "/d/");
  }

  /** An id cut this way holds none of the characters it was cut at. */
  lemma CutAtFree(rest: string, id: string, e: int)
    requires CutAt(rest, id, e)
    ensures '/' !in id && '?' !in id && '&' !in id
  {
    forall x | x in id ensures x != '/' && x != '?' && x != '&' {
      var i :| 0 <= i < |id| && id[i] == x;
      assert rest[i] == x;
    }
  }

  /** The text before the first `/`, `?` or `&`, cut as `load_from_google_drive` cuts it. */
  function FirstCut(rest: string): string
  {
    Before(Before(Before(Before(rest, "/d/"), "/"), "?"), "&")
  }

  lemma FirstCutStops(rest: string)
    ensures var c := FirstCut(rest);
            c == rest[..|c|] &&
            (forall i :: 0 <= i < |c| ==> rest[i] != '/' && rest[i] != '?' && rest[i] != '&') &&
            (|c| < |rest| ==> rest[|c|] == '/' || rest[|c|] == '?' || rest[|c|] == '&')
  {
    var seg := Before(rest, "/d/");
    var a := Before(seg, "/");
    var b := Before(a, "?");
    var c := Before(b, "&");
    CutPath(rest);
    CutChar(seg, '/');
    CutChar(a, '?');
    CutChar(b, '&');
    forall i | 0 <= i < |c| ensures rest[i] != '/' && rest[i] != '?' && rest[i] != '&' {
      assert rest[i] == c[i] && c[i] == b[i] && b[i] == a[i];
      assert a[i] in a && b[i] in b && c[i] in c;
    }
    if |c| < |rest| {
      if |c| < |b| {
        assert rest[|c|] == b[|c|];
      } else if |b| < |a| {
        assert rest[|b|] == a[|b|];
      } else if |a| < |seg| {
        assert rest[|a|] == seg[|a|];
      }
    }
  }

  lemma TrimmedCut(rest: string, c: string)
    requires |c| <= |rest| && c == rest[..|c|]
    requires forall i :: 0 <= i < |c| ==> rest[i] != '/' && rest[i] != '?' && rest[i] != '&'
    requires |c| < |rest| ==> rest[|c|] == '/' || rest[|c|] == '?' || rest[|c|] == '&'
    ensures CutAt(rest, TrimEnd(c, IsDashOrSlash), |c|)
  {
    var id := TrimEnd(c, IsDashOrSlash);
    assert id == c[..|id|] == rest[..|id|];
    forall i | |id| <= i < |c| ensures IsDashOrSlash(rest[i]) {
      assert rest[i] == c[i];
    }
  }

  /** A bare id loses trailing dashes and slashes and any whitespace they hid, and is tried as a Sheet. */
  lemma BareIdTarget(input: string)
    requires !Text.StartsWith(Strip(input), "http")
    ensures var t := FileTarget(input);
            t.id == Strip(TrimEnd(Strip(input), IsDashOrSlash)) &&
            (|t.id| == 0 || (!IsSpace(t.id[0]) && !IsSpace(t.id[|t.id| - 1]))) &&
            |t.id| <= |Strip(input)| &&
            t.url == SheetsUrl(t.id)
  {
    BareIdOf(Strip(input));
  }

  /** The branch a stripped input not starting with `http` takes. */
  lemma BareIdOf(s: string)
    requires !Text.StartsWith(s, "http")
    ensures TargetOf(s) == Target(Strip(TrimEnd(s, IsDashOrSlash)), SheetsUrl(Strip(TrimEnd(s, IsDashOrSlash))))
    ensures |Strip(TrimEnd(s, IsDashOrSlash))| <= |s|
  {
  }

  // ------------------------------------------------------------ a worked example

  /** A character that is not `c` does not start a match of `[c]`. */
  lemma NoMatchOfChar(s: string, c: char, j: int)
    requires 0 <= j < |s| && s[j] != c
    ensures !MatchAt(s, [c], j)
  {
    assert s[j..j + 1][0] == s[j];
  }

  /** A separator whose first character never occurs is not found. */
  lemma FindAbsentHead(s: string, sep: string)
    requires |sep| > 0 && sep[0] !in s
    ensures Find(s, sep).None?
  {
    forall j | 0 <= j < |s| ensures !MatchAt(s, sep, j) {
      if j + |sep| <= |s| {
        assert s[j..j + |sep|][0] == s[j];
      }
    }
  }

  lemma FindAbsent(s: string, c: char)
    requires c !in s
    ensures Find(s, [c]).None?
  {
    forall j | 0 <= j < |s| ensures !MatchAt(s, [c], j) {
      NoMatchOfChar(s, c, j);
    }
  }

  /** The first occurrence of a character is where `find` stops. */
  lemma FindFirst(s: string, c: char, k: nat)
    requires k < |s| && s[k] == c && c !in s[..k]
    ensures Find(s, [c]) == Some(k)
  {
    assert s[k..k + 1] == [c];
    assert MatchAt(s, [c], k);
    forall j | 0 <= j < k ensures !MatchAt(s, [c], j) {
      assert s[..k][j] == s[j];
      NoMatchOfChar(s, c, j);
    }
  }

  /** Text that neither starts nor ends with whitespace is already stripped. */
  lemma StripNothing(s: string)
    requires |s| > 0 && !IsSpace(s[0]) && !IsSpace(s[|s| - 1])
    ensures Strip(s) == s
  {
    assert TrimEnd(s, IsSpace) == s;
  }

  /**
   * The shared Sheets link of the shipment workbook, as the repository's
   * own scripts spell it, and the id they expect it to yield.  The link
   * is written as the Sheets prefix followed by what comes after `/d/`.
   */
  const SharedSheetId := "1ZqnJ0db0p1RwOjMikCQL9R4c1mZ2G59"
  const SharedSheetQuery := "?rtpof=true&usp=drive_fs"
  const SharedSheetTail := (SharedSheetId + "-") + SharedSheetQuery
  const SharedSheet := SheetsPrefix + SharedSheetTail

  lemma SharedSheetStripped()
    ensures Strip(SharedSheet) == SharedSheet
  {
    assert SharedSheet[0] == 'h' && SharedSheet[95] == 's';
    StripNothing(SharedSheet);
  }

  /** No `/d/` occurs in the link before the one after `spreadsheets`. */
  lemma NoPathBefore(j: int)
    requires 0 <= j < 36
    ensures !MatchAt(SharedSheet, "/d/", j)
  {
    var u := SharedSheet;
    assert !(u[j] == '/' && u[j + 1] == 'd' && u[j + 2] == '/');
  }

  lemma SharedSheetIsHttp()
    ensures Text.StartsWith(SharedSheet, "http")
  {
    var u := SharedSheet;
    assert u[0] == 'h' && u[1] == 't' && u[2] == 't' && u[3] == 'p';
  }

  lemma SharedSheetIsSheets()
    ensures Contains(SharedSheet, "spreadsheets")
  {
    var host := "https://docs.google.com/";
    assert SheetsPrefix == host + "spreadsheets" + "/d/";
    assert SharedSheet == host + "spreadsheets" + ("/d/" + SharedSheetTail);
    MatchAtJoin(host, "spreadsheets", "/d/" + SharedSheetTail);
  }

  /** A separator placed after `a` is matched at `|a|`. */
  lemma MatchAtJoin(a: string, sep: string, b: string)
    ensures MatchAt(a + sep + b, sep, |a|)
  {
    assert (a + sep + b)[|a|..|a| + |sep|] == sep;
  }

  lemma SharedSheetPath()
    ensures Find(SharedSheet, "/d/") == Some(36)
  {
    assert MatchAt(SharedSheet, "/d/", 36);
    forall j | 0 <= j < 36 ensures !MatchAt(SharedSheet, "/d/", j) {
      NoPathBefore(j);
    }
  }

  /** The id holds none of the characters the extraction cuts at. */
  lemma SharedSheetIdFree(c: char)
    requires c == '/' || c == '?' || c == '&'
    ensures c !in SharedSheetId + "-"
  {
  }

  lemma SharedSheetQueryFree()
    ensures '/' !in SharedSheetQuery
  {
  }

  lemma SharedSheetIdOf()
    ensures Contains(SharedSheet, "/d/") && SheetsId(SharedSheet) == SharedSheetId
  {
    var u, rest := SharedSheet, SharedSheetTail;
    SharedSheetPath();
    assert u[39..] == rest;
    SharedSheetIdFree('/');
    SharedSheetQueryFree();
    FindAbsentHead(rest, "/d/");
    FindAbsent(rest, '/');
    assert rest[..33] == SharedSheetId + "-";
    SharedSheetIdFree('?');
    FindFirst(rest, '?', 33);
    SharedSheetIdFree('&');
    FindAbsent(SharedSheetId + "-", '&');
    assert TrimEnd(SharedSheetId + "-", IsDashOrSlash) == SharedSheetId;
  }

  /**
   * The shared link yields the expected id: the query after `?` and the
   * dash before it are cut off, and the xlsx export URL is requested.
   */
  lemma SharedSheetTarget()
    ensures FileTarget(SharedSheet) == Target(SharedSheetId, SheetsUrl(SharedSheetId))
  {
    SharedSheetStripped();
    SharedSheetIsHttp();
    SharedSheetIsSheets();
    SharedSheetPath();
    SharedSheetIdOf();
  }

  /**
   * `load_from_google_drive` with the download as a parameter (None where
   * the request fails): when the first URL gives nothing and the id is not
   * itself a URL, the Drive download URL for the id is tried.
   */
  function LoadFromGoogleDrive<T>(input: string, fetch: string -> Option<T>): Option<T>
  {
    var t := FileTarget(input);
    var first := fetch(t.url);
    if first.None? && !Text.StartsWith(t.id, "http") then fetch(DriveUrl(t.id)) else first
  }

  /**
   * A first download that succeeds is the result; otherwise the Drive URL
   * is tried exactly when the id does not start with `http`, and for a
   * Drive URL input that retry requests the same URL again.
   */
  lemma DriveRetry<T>(input: string, fetch: string -> Option<T>)
    ensures var t := FileTarget(input);
            var r := LoadFromGoogleDrive(input, fetch);
            (fetch(t.url).Some? ==> r == fetch(t.url)) &&
            (fetch(t.url).None? && Text.StartsWith(t.id, "http") ==> r.None?) &&
            (fetch(t.url).None? && !Text.StartsWith(t.id, "http") ==> r == fetch(DriveUrl(t.id))) &&
            (Text.StartsWith(Strip(input), "http") && !Contains(Strip(input), "spreadsheets") ==> t.url == DriveUrl(t.id))
  {
  }

  // ------------------------------------------------------------ choosing the source

  /**
   * `st.secrets`: the `data_files` section when there is one, and the
   * root-level keys.  Only which keys exist and the texts of the file
   * entries matter here.
   */
  datatype Secrets = Secrets(dataFiles: Option<map<string, string>>, root: map<string, string>)

  /** Where `load_cloud_data` takes the two files from. */
  datatype Source =
    | Urls(shipping: string, sales: string)
    | Base64(shipping: string, sales: string)
    | DriveIds(shipping: string, sales: string)
    | FileIds(shipping: string, sales: string)
    | Unrecognised
    | RootFileIds(shipping: string, sales: string)
    | Inline
    | NoConfiguration
    | NotOnCloud

  /** Both files' entries of one kind, e.g. `shipping_url` and `sales_url`. */
  function Pair(m: map<string, string>, kind: string): Option<(string, string)>
  {
    var shipping, sales := "shipping_" + kind, "sales_" + kind;
    if shipping in m && sales in m then Some((m[shipping], m[sales])) else None
  }

  /** The `if`/`elif` chain of `load_cloud_data`; None is the absence of `st.secrets`. */
  function ChooseSource(secrets: Option<Secrets>): Source
  {
    if secrets.None? then NotOnCloud
    else if secrets.value.dataFiles.Some? then
      var m := secrets.value.dataFiles.value;
      if Pair(m, "url").Some? then Urls(Pair(m, "url").value.0, Pair(m, "url").value.1)
      else if Pair(m, "base64").Some? then Base64(Pair(m, "base64").value.0, Pair(m, "base64").value.1)
      else if Pair(m, "drive_id").Some? then DriveIds(Pair(m, "drive_id").value.0, Pair(m, "drive_id").value.1)
      else if Pair(m, "file_id").Some? then FileIds(Pair(m, "file_id").value.0, Pair(m, "file_id").value.1)
      else Unrecognised
    else
      var root := secrets.value.root;
      if Pair(root, "file_id").Some? then RootFileIds(Pair(root, "file_id").value.0, Pair(root, "file_id").value.1)
      else if Pair(root, "data").Some? then Inline
      else NoConfiguration
  }

  /**
   * The precedence of the sources: inside `data_files`, URLs over base64
   * over drive ids over file ids; a `data_files` section shadows every
   * root-level key, even when it names no source it recognises; at root
   * level, file ids over inline data.
   */
  lemma SourcePrecedence(s: Secrets)
    ensures var src := ChooseSource(Some(s));
            (src.Urls? || src.Base64? || src.DriveIds? || src.FileIds? || src.Unrecognised?) <==> s.dataFiles.Some?
    ensures s.dataFiles.Some? ==>
              var m := s.dataFiles.value;
              var src := ChooseSource(Some(s));
              (src.Urls? <==> "shipping_url" in m && "sales_url" in m) &&
              (src.Base64? <==> Pair(m, "url").None? && "shipping_base64" in m && "sales_base64" in m) &&
              (src.DriveIds? <==> Pair(m, "url").None? && Pair(m, "base64").None? && Pair(m, "drive_id").Some?) &&
              (src.FileIds? <==> Pair(m, "url").None? && Pair(m, "base64").None? && Pair(m, "drive_id").None? && Pair(m, "file_id").Some?) &&
              (src.Urls? ==> src.shipping == m["shipping_url"] && src.sales == m["sales_url"])
    ensures s.dataFiles.None? ==>
              var src := ChooseSource(Some(s));
              (src.RootFileIds? <==> "shipping_file_id" in s.root && "sales_file_id" in s.root) &&
              (src.Inline? <==> Pair(s.root, "file_id").None? && "shipping_data" in s.root && "sales_data" in s.root) &&
              (src.RootFileIds? ==> src.shipping == s.root["shipping_file_id"] && src.sales == s.root["sales_file_id"])
  {
    assert "shipping_" + "url" == "shipping_url" && "sales_" + "url" == "sales_url";
    assert "shipping_" + "base64" == "shipping_base64" && "sales_" + "base64" == "sales_base64";
    assert "shipping_" + "file_id" == "shipping_file_id" && "sales_" + "file_id" == "sales_file_id";
    assert "shipping_" + "data" == "shipping_data" && "sales_" + "data" == "sales_data";
  }
}
