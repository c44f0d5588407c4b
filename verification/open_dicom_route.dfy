/**
 * The `/viewer/open` route of the viewer: it turns its query parameters into
 * the list of remote DICOM URLs to download, and, once the downloaded files
 * are registered, builds the route of the local viewer.
 *
 * The network is a parameter: `decodeURIComponent`, the manifest requests
 * and the `HEAD` probes. Downloading, registering the files and navigating
 * are not part of this model.
 */
module OpenDicomRoute {
  import opened Options
  import opened JsStrings
  import opened JsNumbers
  import opened JsArrays

  /** The three parameters, as `URLSearchParams.get` returns them. */
  datatype Params = Params(dicomUrl: Option<string>, studyList: Option<string>, dicomFolderUrl: Option<string>)

  datatype Network = Network(
    decode: string -> Option<string>,         // `decodeURIComponent`; None when it throws
    manifest: string -> Option<seq<string>>,  // GET answered ok, with a JSON content type and an array body
    headOk: string -> bool)                   // HEAD answered ok (false also when the request throws)

  datatype Resolution =
    | NoParameters        // the effect returns at once
    | Failed              // an exception ends the effect before any download
    | Resolved(urls: seq<string>)

  const ProbeLimit := 2000

  predicate HasParameters(params: Params)
  {
    Truthy(params.dicomUrl) || Truthy(params.studyList) || Truthy(params.dicomFolderUrl)
  }

  /** `pieces.map(decodeURIComponent)`: None as soon as one piece does not decode. */
  function DecodeAll(pieces: seq<string>, decode: string -> Option<string>): (r: Option<seq<string>>)
    ensures r.Some? ==> |r.value| == |pieces| && forall i :: 0 <= i < |pieces| ==> decode(pieces[i]) == Some(r.value[i])
    ensures r.None? ==> exists i :: 0 <= i < |pieces| && decode(pieces[i]).None?
  {
    if pieces == [] then Some([])
    else
      match decode(pieces[0])
      case None => None
      case Some(first) =>
        match DecodeAll(pieces[1..], decode)
        case None =>
          var i :| 0 <= i < |pieces[1..]| && decode(pieces[1..][i]).None?;
          assert decode(pieces[i + 1]).None?;
          None
        case Some(rest) => Some([first] + rest)
  }

  /** `${baseUrl}/${item}` for every manifest entry. */
  function Prefixed(base: string, items: seq<string>): seq<string>
  {
    Map((item: string) => base + "/" + item, items)
  }

  function ManifestCandidates(base: string): seq<string>
  {
    [base + "/manifest.json", base + "/index.json"]
  }

  /** The first manifest that answers with a JSON array wins; `manifest.json` is asked first. */
  function ManifestUrls(base: string, manifest: string -> Option<seq<string>>): seq<string>
  {
    var candidates := ManifestCandidates(base);
    if manifest(candidates[0]).Some? then Prefixed(base, manifest(candidates[0]).value)
    else if manifest(candidates[1]).Some? then Prefixed(base, manifest(candidates[1]).value)
    else []
  }

  method ReadManifest(base: string, manifest: string -> Option<seq<string>>) returns (urls: seq<string>)
    ensures urls == ManifestUrls(base, manifest)
  {
    urls := [];
    var manifestCandidates := ManifestCandidates(base);
    for k := 0 to |manifestCandidates|
      invariant urls == []
      invariant forall j :: 0 <= j < k ==> manifest(manifestCandidates[j]).None?
    {
      var data := manifest(manifestCandidates[k]);
      if data.Some? {
        urls := Map((item: string) => base + "/" + item, data.value);
        break;
      }
    }
  }

  /** `${baseUrl}/image-${String(i).padStart(5, '0')}.dcm`. */
  function Candidate(base: string, i: nat): string
  {
    base + "/image-" + PadStart(NatToString(i), 5, '0') + ".dcm"
  }

  /** Every probed name is the base, `/image-`, five digits reading as the index, and `.dcm`. */
  lemma CandidateShape(base: string, i: nat)
    requires i < ProbeLimit
    ensures var c := Candidate(base, i);
      && |c| == |base| + 16
      && c[..|base| + 7] == base + "/image-"
      && c[|base| + 12..] == ".dcm"
      && AllRadixDigits(c[|base| + 7..|base| + 12], 10)
      && DigitsValue(c[|base| + 7..|base| + 12], 10) == i
  {
    PadFiveValue(i);
    var index := PadStart(NatToString(i), 5, '0');
    var c := Candidate(base, i);
    assert c == (base + "/image-") + index + ".dcm";
    assert c[|base| + 7..|base| + 12] == index;
  }

  /** Distinct indexes give distinct names, so no file is probed twice. */
  lemma CandidateInjective(base: string, i: nat, j: nat)
    requires i < ProbeLimit && j < ProbeLimit && i != j
    ensures Candidate(base, i) != Candidate(base, j)
  {
    CandidateShape(base, i);
    CandidateShape(base, j);
  }

  /** The probe's names, index by index. */
  function ImageName(base: string): nat -> string
  {
    (i: nat) => Candidate(base, i)
  }

  /** The first index from `i` on whose probe misses, or the limit. */
  function FirstMiss(name: nat -> string, headOk: string -> bool, i: nat): (k: nat)
    ensures i <= k && (i <= ProbeLimit ==> k <= ProbeLimit)
    ensures k < ProbeLimit ==> !headOk(name(k))
    ensures forall j :: i <= j < k ==> headOk(name(j))
    decreases ProbeLimit - i
  {
    if i >= ProbeLimit then i
    else if !headOk(name(i)) then i
    else FirstMiss(name, headOk, i + 1)
  }

  lemma {:induction false} FirstMissIs(name: nat -> string, headOk: string -> bool, i: nat, k: nat)
    requires i <= k <= ProbeLimit
    requires forall j :: i <= j < k ==> headOk(name(j))
    requires k < ProbeLimit ==> !headOk(name(k))
    ensures FirstMiss(name, headOk, i) == k
    decreases k - i
  {
    if i < k {
      FirstMissIs(name, headOk, i + 1, k);
    }
  }

  /** The names from index `1` up to (not including) `k`. */
  function Hits(name: nat -> string, k: nat): seq<string>
  {
    seq(if k == 0 then 0 else k - 1, j requires 0 <= j < k - 1 => name(j + 1))
  }

  lemma HitsAt(name: nat -> string, k: nat, j: nat)
    requires j + 1 < k
    ensures |Hits(name, k)| == k - 1 && Hits(name, k)[j] == name(j + 1)
  {
  }

  lemma HitsGrow(name: nat -> string, k: nat)
    requires k >= 1
    ensures Hits(name, k + 1) == Hits(name, k) + [name(k)]
  {
    var longer, shorter := Hits(name, k + 1), Hits(name, k) + [name(k)];
    assert |longer| == |shorter|;
    forall j | 0 <= j < |longer| ensures longer[j] == shorter[j] {
    }
  }

  /**
   * What a probe over `name` finds: the name of index 0 when it exists, then
   * every consecutive name from index 1 on, up to the first one that is
   * missing or the limit of 2000.
   */
  function Found(name: nat -> string, headOk: string -> bool): seq<string>
  {
    (if headOk(name(0)) then [name(0)] else []) + Hits(name, FirstMiss(name, headOk, 1))
  }

  /** How many names the probe keeps before index 1: one when index 0 exists. */
  function FirstFound(name: nat -> string, headOk: string -> bool): nat
  {
    if headOk(name(0)) then 1 else 0
  }

  /** The probe of a folder: `image-00000.dcm`, `image-00001.dcm`, … under its base URL. */
  function ProbeUrls(base: string, headOk: string -> bool): seq<string>
  {
    Found(ImageName(base), headOk)
  }

  method Probe(base: string, headOk: string -> bool) returns (urls: seq<string>)
    ensures urls == ProbeUrls(base, headOk)
  {
    ghost var name := ImageName(base);
    urls := [];
    ghost var first := if headOk(name(0)) then [name(0)] else [];
    var i := 0;
    while i < ProbeLimit
      invariant 0 <= i <= ProbeLimit
      invariant i == 0 ==> urls == []
      invariant i >= 1 ==> urls == first + Hits(name, i)
      invariant forall j :: 1 <= j < i ==> headOk(name(j))
    {
      var index := PadStart(NatToString(i), 5, '0');
      var candidate := base + "/image-" + index + ".dcm";
      assert candidate == name(i);
      if headOk(candidate) {
        if i >= 1 {
          HitsGrow(name, i);
        }
        urls := urls + [candidate];
      } else if i > 0 {
        FirstMissIs(name, headOk, 1, i);
        return;
      }
      i := i + 1;
    }
    FirstMissIs(name, headOk, 1, ProbeLimit);
  }

  /** The folder's files: the manifest's entries when there are any, the probe's otherwise. */
  function FolderUrls(folderUrl: string, net: Network): seq<string>
  {
    var base := TrimTrailing(folderUrl, '/');
    var listed := ManifestUrls(base, net.manifest);
    if listed != [] then listed else ProbeUrls(base, net.headOk)
  }

  /**
   * The URLs the parameters name, by precedence `dicomUrl`, `studyList`,
   * `dicomFolderUrl`; None when decoding throws.
   */
  function UrlsFor(params: Params, net: Network): Option<seq<string>>
  {
    if Truthy(params.dicomUrl) then
      match net.decode(params.dicomUrl.value)
      case None => None
      case Some(u) => Some([u])
    else if Truthy(params.studyList) then DecodeAll(Split(params.studyList.value, ','), net.decode)
    else if Truthy(params.dicomFolderUrl) then
      match net.decode(params.dicomFolderUrl.value)
      case None => None
      case Some(folder) => Some(FolderUrls(folder, net))
    else Some([])
  }

  /**
   * The URL-resolution part of the effect. Without any parameter nothing
   * happens; when decoding throws or no URL is found the effect fails before
   * downloading; otherwise the resolved URLs are those `UrlsFor` names.
   */
  method Resolve(params: Params, net: Network) returns (r: Resolution)
    ensures r == NoParameters <==> !HasParameters(params)
    ensures HasParameters(params) && UrlsFor(params, net).Some? && UrlsFor(params, net).value != [] ==>
              r == Resolved(UrlsFor(params, net).value)
    ensures HasParameters(params) && (UrlsFor(params, net).None? || UrlsFor(params, net).value == []) ==>
              r == Failed
  {
    if !Truthy(params.dicomUrl) && !Truthy(params.studyList) && !Truthy(params.dicomFolderUrl) {
      return NoParameters;
    }
    var urls: seq<string> := [];
    if Truthy(params.dicomUrl) {
      var decoded := net.decode(params.dicomUrl.value);
      if decoded.None? {
        return Failed;
      }
      urls := [decoded.value];
    } else if Truthy(params.studyList) {
      var decoded := DecodeAll(Split(params.studyList.value, ','), net.decode);
      if decoded.None? {
        return Failed;
      }
      urls := decoded.value;
    } else if Truthy(params.dicomFolderUrl) {
      var decoded := net.decode(params.dicomFolderUrl.value);
      if decoded.None? {
        return Failed;
      }
      var baseUrl := TrimTrailing(decoded.value, '/');
      urls := ReadManifest(baseUrl, net.manifest);
      if |urls| == 0 {
        urls := Probe(baseUrl, net.headOk);
      }
    }
    if |urls| == 0 {
      return Failed;
    }
    return Resolved(urls);
  }

  /** `dicomUrl` wins over the other parameters and names exactly one file. */
  lemma DicomUrlFirst(params: Params, net: Network)
    requires Truthy(params.dicomUrl) && net.decode(params.dicomUrl.value).Some?
    ensures UrlsFor(params, net) == Some([net.decode(params.dicomUrl.value).value])
    ensures UrlsFor(params, net) == UrlsFor(params.(studyList := None, dicomFolderUrl := None), net)
  {
  }

  /** `studyList` names one file per comma-separated piece, each decoded, in order. */
  lemma StudyListPieces(params: Params, net: Network)
    requires !Truthy(params.dicomUrl) && Truthy(params.studyList)
    requires UrlsFor(params, net).Some?
    ensures var pieces := Split(params.studyList.value, ',');
      var urls := UrlsFor(params, net).value;
      |urls| == |pieces| && forall i :: 0 <= i < |pieces| ==> net.decode(pieces[i]) == Some(urls[i])
  {
  }

  /**
   * For a folder, every file the manifest lists sits under the base URL with
   * its trailing slashes removed; the probe runs only when the manifest
   * gave nothing.
   */
  lemma FolderManifestOrProbe(folderUrl: string, net: Network)
    ensures var base := TrimTrailing(folderUrl, '/');
      var listed := ManifestUrls(base, net.manifest);
      && (base == [] || base[|base| - 1] != '/')
      && (net.manifest(base + "/manifest.json").Some? ==> listed == Prefixed(base, net.manifest(base + "/manifest.json").value))
      && (listed != [] ==> FolderUrls(folderUrl, net) == listed)
      && (listed == [] ==> FolderUrls(folderUrl, net) == ProbeUrls(base, net.headOk))
  {
  }

  /**
   * The probe's stop rule: a miss at index 0 is passed over, and the probe
   * goes on through every consecutive hit from index 1 until the first miss
   * or the limit.
   */
  lemma ProbeStopRule(name: nat -> string, headOk: string -> bool)
    ensures 1 <= FirstMiss(name, headOk, 1) <= ProbeLimit
    ensures forall j :: 1 <= j < FirstMiss(name, headOk, 1) ==> headOk(name(j))
    ensures FirstMiss(name, headOk, 1) < ProbeLimit ==> !headOk(name(FirstMiss(name, headOk, 1)))
  {
  }

  /** The probe lists index 0 when it exists, then the hits from index 1 on, by increasing index. */
  lemma ProbeOrder(name: nat -> string, headOk: string -> bool)
    ensures |Found(name, headOk)| == FirstFound(name, headOk) + FirstMiss(name, headOk, 1) - 1
    ensures headOk(name(0)) ==> Found(name, headOk)[0] == name(0)
    ensures forall k :: FirstFound(name, headOk) <= k < |Found(name, headOk)| ==>
              Found(name, headOk)[k] == name(k - FirstFound(name, headOk) + 1)
  {
    var stop := FirstMiss(name, headOk, 1);
    var hits := Hits(name, stop);
    var head := if headOk(name(0)) then [name(0)] else [];
    var found, first := Found(name, headOk), FirstFound(name, headOk);
    assert found == head + hits;
    assert |head| == first && |hits| == stop - 1;
    forall k | first <= k < |found|
      ensures found[k] == name(k - first + 1)
    {
      HitsAt(name, stop, k - first);
    }
  }

  /** One `name=value` pair of `URLSearchParams.toString`. */
  function Pair(name: string, value: string, formEncode: string -> string): string
  {
    formEncode(name) + "=" + formEncode(value)
  }

  /** The query of the local viewer: one `StudyInstanceUIDs` per study, then the data source. */
  function ViewerQuery(studyUIDs: seq<string>): seq<(string, string)>
  {
    Map((uid: string) => ("StudyInstanceUIDs", uid), studyUIDs) + [("datasources", "dicomlocal")]
  }

  function QueryString(query: seq<(string, string)>, formEncode: string -> string): string
  {
    Join(Map((p: (string, string)) => Pair(p.0, p.1, formEncode), query), '&')
  }

  method ViewerRoute(studyUIDs: seq<string>, formEncode: string -> string) returns (route: string)
    ensures route == "/viewer/dicomlocal?" + QueryString(ViewerQuery(studyUIDs), formEncode)
  {
    var qs: seq<(string, string)> := [];
    for k := 0 to |studyUIDs|
      invariant qs == Map((uid: string) => ("StudyInstanceUIDs", uid), studyUIDs[..k])
    {
      qs := qs + [("StudyInstanceUIDs", studyUIDs[k])];
    }
    assert studyUIDs[..|studyUIDs|] == studyUIDs;
    qs := qs + [("datasources", "dicomlocal")];
    route := "/viewer/dicomlocal?" + QueryString(qs, formEncode);
  }

  /**
   * Form encoding escapes `&`, so the route's query splits back into one
   * `StudyInstanceUIDs` pair per study, in order, followed by
   * `datasources=dicomlocal`.
   */
  lemma ViewerQuerySplits(studyUIDs: seq<string>, formEncode: string -> string)
    requires forall s :: '&' !in formEncode(s)
    ensures var pairs := Split(QueryString(ViewerQuery(studyUIDs), formEncode), '&');
      && |pairs| == |studyUIDs| + 1
      && (forall i :: 0 <= i < |studyUIDs| ==> pairs[i] == Pair("StudyInstanceUIDs", studyUIDs[i], formEncode))
      && pairs[|studyUIDs|] == Pair("datasources", "dicomlocal", formEncode)
  {
    var query := ViewerQuery(studyUIDs);
    var pairs := Map((p: (string, string)) => Pair(p.0, p.1, formEncode), query);
    forall i | 0 <= i < |pairs| ensures '&' !in pairs[i] {
      assert '&' !in formEncode(query[i].0) && '&' !in formEncode(query[i].1);
    }
    SplitJoin(pairs, '&');
  }
}
