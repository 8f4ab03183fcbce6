/**
 * What the download handler derives from the request body before it starts
 * the tool: the job key progress is routed under, the identifier used in a
 * generated file name, and the output file name.
 */
module Naming {
  import opened Text

  /** A field of the parsed JSON body; `Composite` stands for any array or object. */
  datatype JsValue = Undefined | Null | Bool(b: bool) | Num(x: real) | Str(s: string) | Composite

  /** JavaScript truthiness (`-0` and `0` are the same real). */
  predicate Truthy(v: JsValue) {
    match v
    case Undefined => false
    case Null => false
    case Bool(b) => b
    case Num(x) => x != 0.0
    case Str(s) => s != []
    case Composite => true
  }

  /** The caller's `jobId` is used when it is a string with something other than whitespace. */
  predicate UsableJobId(jobId: JsValue) {
    jobId.Str? && Trim(jobId.s) != []
  }

  /** `jobKey`: the trimmed caller key, else `job-` and the clock reading `now`. */
  function JobKey(jobId: JsValue, now: nat): (k: string)
    ensures k != [] && !IsSpace(k[0]) && !IsSpace(k[|k| - 1])
  {
    if UsableJobId(jobId) then Trim(jobId.s) else "job-" + NatToString(now)
  }

  /** A caller key without surrounding whitespace is used as given. */
  lemma TrimmedKeyUsed(jobId: string, now: nat)
    requires jobId != [] && !IsSpace(jobId[0]) && !IsSpace(jobId[|jobId| - 1])
    ensures JobKey(Str(jobId), now) == jobId
  {
    TrimmedAlready(jobId);
  }

  /** The class `[a-zA-Z0-9_-]`. */
  predicate IsSafe(c: char) {
    ('a' <= c <= 'z') || ('A' <= c <= 'Z') || ('0' <= c <= '9') || c == '_' || c == '-'
  }

  /** `safeId`: the job key with every character outside the class removed. */
  function SafeId(key: string): string {
    Filter(key, IsSafe)
  }

  /** The characters stripped from a caller-supplied file name. */
  predicate IsForbidden(c: char) {
    c == '/' || c == '\\' || c == '?' || c == '%' || c == '*' || c == ':' || c == '|' ||
    c == '"' || c == '<' || c == '>'
  }

  predicate Allowed(c: char) {
    !IsForbidden(c)
  }

  /** A string file name, trimmed and stripped of forbidden characters. */
  function Sanitize(name: string): string {
    Filter(Trim(name), Allowed)
  }

  /** `sanitizedName`: the sanitized `filename` when it is a string, otherwise empty. */
  function SanitizedName(filename: JsValue): string {
    if filename.Str? then Sanitize(filename.s) else []
  }

  /** The suffix test `name.toLowerCase().endsWith(".mp4")`. */
  predicate HasMp4Suffix(name: string) {
    EndsWith(ToLower(name), ".mp4")
  }

  /** Appending ".mp4" always produces the suffix. */
  lemma AppendedSuffix(s: string)
    ensures HasMp4Suffix(s + ".mp4")
  {
    var t := s + ".mp4";
    assert ToLower(t)[|t| - 4..] == ".mp4" by {
      forall i | 0 <= i < 4 ensures ToLower(t)[|t| - 4..][i] == ".mp4"[i] {
        assert ToLower(t)[|t| - 4 + i] == LowerChar(t[|s| + i]);
      }
    }
  }

  /**
   * `finalName`: a non-empty sanitized name keeps its case and gets ".mp4"
   * only when it does not already end that way in any case; otherwise
   * `video_` and the safe identifier, or the clock reading `now` when that is
   * empty. Either way the result ends in ".mp4"; a sanitized name is kept
   * as is, or ".mp4" itself is appended to it.
   */
  function FinalName(sanitized: string, safeId: string, now: nat): (r: string)
    ensures HasMp4Suffix(r)
    ensures sanitized != [] ==>
      |sanitized| <= |r| <= |sanitized| + 4 && r[..|sanitized|] == sanitized &&
      (r == sanitized <==> HasMp4Suffix(sanitized))
    ensures sanitized != [] && !HasMp4Suffix(sanitized) ==> r == sanitized + ".mp4"
    ensures sanitized == [] && safeId != [] ==> r == "video_" + safeId + ".mp4"
    ensures sanitized == [] && safeId == [] ==> r == "video_" + NatToString(now) + ".mp4"
  {
    if sanitized != [] then
      if HasMp4Suffix(sanitized) then sanitized
      else
        AppendedSuffix(sanitized);
        sanitized + ".mp4"
    else
      var id := if safeId != [] then safeId else NatToString(now);
      AppendedSuffix("video_" + id);
      "video_" + id + ".mp4"
  }

  /** The suffix rule applied to its own result changes nothing: ".mp4" is never doubled. */
  lemma FinalNameIdempotent(sanitized: string, safeId: string, now: nat, safeId': string, now': nat)
    ensures FinalName(FinalName(sanitized, safeId, now), safeId', now') == FinalName(sanitized, safeId, now)
  {
  }

  /** The file name the handler saves under, from the request's `filename` and the job key. */
  function FileName(filename: JsValue, key: string, now: nat): string {
    FinalName(SanitizedName(filename), SafeId(key), now)
  }

  /** A name `path.join` appends as exactly one last component. */
  predicate IsPathComponent(name: string) {
    name != [] && name != "." && name != ".." &&
    forall i :: 0 <= i < |name| ==> name[i] != '/' && name[i] != '\\'
  }

  /** The safe identifier holds only `[a-zA-Z0-9_-]`, keeps every such character of the key, and is the key itself exactly when the key is already safe. */
  lemma SafeIdSpec(key: string)
    ensures forall i :: 0 <= i < |SafeId(key)| ==> IsSafe(SafeId(key)[i])
    ensures forall c :: IsSafe(c) ==> multiset(SafeId(key))[c] == multiset(key)[c]
    ensures SafeId(key) == key <==> forall i :: 0 <= i < |key| ==> IsSafe(key[i])
  {
    forall c | IsSafe(c) ensures multiset(SafeId(key))[c] == multiset(key)[c] {
      FilterCounts(key, IsSafe, c);
    }
    FilterIdentityIff(key, IsSafe);
  }

  /**
   * The job key is the trimmed caller key when there is one; a generated key
   * is `job-` followed by the printed clock reading, and is its own safe
   * identifier.
   */
  lemma JobKeySpec(jobId: JsValue, now: nat)
    ensures UsableJobId(jobId) ==> JobKey(jobId, now) == Trim(jobId.s)
    ensures !UsableJobId(jobId) ==>
      var k := JobKey(jobId, now);
      k[..4] == "job-" && k[4..] == NatToString(now) &&
      AllDigits(k[4..]) && DigitsValue(k[4..]) == now && SafeId(k) == k
  {
    if !UsableJobId(jobId) {
      var k := JobKey(jobId, now);
      assert k[4..] == NatToString(now);
      NatToStringRoundTrip(now);
      FilterKeepsClean(k, IsSafe);
    }
  }

  /** No character of `s` is one of the stripped ones. */
  predicate Clean(s: string) {
    forall i :: 0 <= i < |s| ==> !IsForbidden(s[i])
  }

  lemma CleanAppend(a: string, b: string)
    requires Clean(a) && Clean(b)
    ensures Clean(a + b)
  {
    forall i | 0 <= i < |a + b| ensures !IsForbidden((a + b)[i]) {
      if i < |a| {
        assert (a + b)[i] == a[i];
      } else {
        assert (a + b)[i] == b[i - |a|];
      }
    }
  }

  /** A string ending in ".mp4" in any case is not "." or "..". */
  lemma SuffixedIsNotDots(r: string)
    requires HasMp4Suffix(r)
    ensures r != "." && r != ".."
  {
    assert |r| >= 4;
  }

  /** The name of the final branch, `video_<id>.mp4`, is clean for a clean identifier. */
  lemma GeneratedNameClean(id: string)
    requires Clean(id)
    ensures Clean("video_" + id + ".mp4")
  {
    CleanAppend("video_", id);
    CleanAppend("video_" + id, ".mp4");
  }

  /** A clean non-empty name stays clean through the suffix rule. */
  lemma FinalNameClean(sanitized: string, safeId: string, now: nat)
    requires Clean(sanitized) && forall i :: 0 <= i < |safeId| ==> IsSafe(safeId[i])
    ensures Clean(FinalName(sanitized, safeId, now))
  {
    if sanitized == [] {
      GeneratedNameClean(if safeId != [] then safeId else NatToString(now));
    } else if !HasMp4Suffix(sanitized) {
      CleanAppend(sanitized, ".mp4");
    }
  }

  /**
   * Whatever the caller sends, the file name contains none of the stripped
   * characters, ends in ".mp4", and is a single path component.
   */
  lemma FileNameSpec(filename: JsValue, key: string, now: nat)
    ensures var r := FileName(filename, key, now);
      HasMp4Suffix(r) && IsPathComponent(r) && Clean(r)
  {
    SafeIdSpec(key);
    FinalNameClean(SanitizedName(filename), SafeId(key), now);
    SuffixedIsNotDots(FileName(filename, key, now));
  }

  /** A clean name without surrounding whitespace is its own sanitized name. */
  lemma SanitizedAlready(s: string)
    requires s == [] || (!IsSpace(s[0]) && !IsSpace(s[|s| - 1]))
    requires Clean(s)
    ensures Sanitize(s) == s
  {
    TrimmedAlready(s);
    assert Sanitize(s) == Filter(s, Allowed);
    forall i | 0 <= i < |s| ensures Allowed(s[i]) {
    }
    FilterKeepsClean(s, Allowed);
  }

  /** A name that needs no sanitizing keeps its case and gets ".mp4" appended only when it lacks it. */
  lemma CleanNameKept(name: string, key: string, now: nat)
    requires name != [] && !IsSpace(name[0]) && !IsSpace(name[|name| - 1]) && Clean(name)
    ensures FileName(Str(name), key, now) == if HasMp4Suffix(name) then name else name + ".mp4"
  {
    SanitizedAlready(name);
  }

  /**
   * A clean name without surrounding whitespace and without the suffix gets
   * ".mp4" appended: the second case of `CleanNameKept`, stated on its own.
   */
  lemma SuffixAppended(name: string, key: string, now: nat)
    requires name != [] && !IsSpace(name[0]) && !IsSpace(name[|name| - 1]) && Clean(name)
    requires !HasMp4Suffix(name)
    ensures FileName(Str(name), key, now) == name + ".mp4"
  {
    CleanNameKept(name, key, now);
  }

  /** A plain name gets the suffix: `filename: "clip"` is saved as "clip.mp4". */
  lemma PlainNameExample(key: string, now: nat)
    ensures FileName(Str("clip"), key, now) == "clip.mp4"
  {
    var s := "clip";
    assert ToLower(s)[0] == 'c';
    SuffixAppended(s, key, now);
  }

  /** A name already ending in ".MP4" keeps its case and gets no second suffix. */
  lemma UpperCaseSuffixExample(key: string, now: nat)
    ensures FileName(Str("Clip.MP4"), key, now) == "Clip.MP4"
  {
    var s := "Clip.MP4";
    assert ToLower(s)[4..] == ".mp4" by {
      forall i | 0 <= i < 4 ensures ToLower(s)[4..][i] == ".mp4"[i] {
        assert ToLower(s)[4 + i] == LowerChar(s[4 + i]);
      }
    }
    CleanNameKept(s, key, now);
  }

  /** Without a usable file name the job key names the file: key "abc" gives "video_abc.mp4". */
  lemma GeneratedNameExample(now: nat)
    ensures FileName(Undefined, "abc", now) == "video_abc.mp4"
  {
    FilterKeepsClean("abc", IsSafe);
  }
}
