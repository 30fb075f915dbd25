/**
 * ObjectPainterResources: where the tool's folder lies inside the project
 * (PathToToolRoot) and which brush collection asset is used
 * (LoadSavedBrushes). The directory search and the asset database are
 * inputs.
 *
 * Bare line numbers in this module refer to Editor/ObjectPainterResources.cs.
 */
module Resources {
  import opened Values

  /** `pattern` occurs in `s` starting at position i. */
  predicate OccursAt(s: string, pattern: string, i: nat)
  {
    i + |pattern| <= |s| && s[i..i + |pattern|] == pattern
  }

  /** `pattern` occurs nowhere in `s`. */
  predicate Absent(s: string, pattern: string)
  {
    forall i :: 0 <= i <= |s| ==> !OccursAt(s, pattern, i)
  }

  /**
   * string.Replace(oldValue, newValue) from position i on: the scan looks for
   * an occurrence at each position, replaces it and resumes after it, and
   * otherwise keeps the character and moves one on.
   */
  function ReplaceFrom(s: string, oldValue: string, newValue: string, i: nat): string
    requires |oldValue| > 0 && i <= |s|
    decreases |s| - i
  {
    if |s| - i < |oldValue| then s[i..]
    else if OccursAt(s, oldValue, i) then newValue + ReplaceFrom(s, oldValue, newValue, i + |oldValue|)
    else [s[i]] + ReplaceFrom(s, oldValue, newValue, i + 1)
  }

  /** Without an occurrence from i on, the scan keeps the rest as it is. */
  lemma {:induction false} ReplaceFromAbsent(s: string, oldValue: string, newValue: string, i: nat)
    requires |oldValue| > 0 && i <= |s|
    ensures (forall j :: i <= j <= |s| ==> !OccursAt(s, oldValue, j)) ==> ReplaceFrom(s, oldValue, newValue, i) == s[i..]
    decreases |s| - i
  {
    if |s| - i >= |oldValue| && !OccursAt(s, oldValue, i) {
      ReplaceFromAbsent(s, oldValue, newValue, i + 1);
      assert s[i..] == [s[i]] + s[i + 1..];
    }
  }

  /** The scan produces only characters of s and of the replacement. */
  lemma {:induction false} ReplaceFromCharacters(s: string, oldValue: string, newValue: string, i: nat)
    requires |oldValue| > 0 && i <= |s|
    ensures forall c :: c in ReplaceFrom(s, oldValue, newValue, i) ==> c in s || c in newValue
    decreases |s| - i
  {
    if |s| - i >= |oldValue| {
      if OccursAt(s, oldValue, i) {
        ReplaceFromCharacters(s, oldValue, newValue, i + |oldValue|);
      } else {
        ReplaceFromCharacters(s, oldValue, newValue, i + 1);
      }
    }
  }

  /**
   * string.Replace(oldValue, newValue): occurrences are found from the left
   * and replaced without overlapping. An empty oldValue throws, so it is
   * excluded.
   */
  function ReplaceAll(s: string, oldValue: string, newValue: string): (r: string)
    requires |oldValue| > 0
    ensures Absent(s, oldValue) ==> r == s
    ensures forall c :: c in r ==> c in s || c in newValue
  {
    ReplaceFromAbsent(s, oldValue, newValue, 0);
    ReplaceFromCharacters(s, oldValue, newValue, 0);
    ReplaceFrom(s, oldValue, newValue, 0)
  }

  /** An occurrence in s[d..] at i is an occurrence in s at d + i. */
  lemma OccursAtDrop(s: string, pattern: string, d: nat, i: nat)
    requires d <= |s|
    ensures OccursAt(s[d..], pattern, i) <==> OccursAt(s, pattern, d + i)
  {
    if d + i + |pattern| <= |s| {
      assert s[d..][i..i + |pattern|] == s[d + i..d + i + |pattern|];
    }
  }

  /** One step of ReplaceFromDrop at an occurrence. */
  lemma DropAtMatch(s: string, oldValue: string, newValue: string, d: nat, i: nat)
    requires |oldValue| > 0 && d + i + |oldValue| <= |s|
    requires OccursAt(s, oldValue, d + i)
    requires ReplaceFrom(s, oldValue, newValue, d + i + |oldValue|) == ReplaceFrom(s[d..], oldValue, newValue, i + |oldValue|)
    ensures ReplaceFrom(s, oldValue, newValue, d + i) == ReplaceFrom(s[d..], oldValue, newValue, i)
  {
    OccursAtDrop(s, oldValue, d, i);
  }

  /** One step of ReplaceFromDrop past a character that starts no occurrence. */
  lemma DropAtOther(s: string, oldValue: string, newValue: string, d: nat, i: nat)
    requires |oldValue| > 0 && d + i + |oldValue| <= |s|
    requires !OccursAt(s, oldValue, d + i)
    requires ReplaceFrom(s, oldValue, newValue, d + i + 1) == ReplaceFrom(s[d..], oldValue, newValue, i + 1)
    ensures ReplaceFrom(s, oldValue, newValue, d + i) == ReplaceFrom(s[d..], oldValue, newValue, i)
  {
    OccursAtDrop(s, oldValue, d, i);
    assert s[d..][i] == s[d + i];
  }

  /** Scanning s from position d + i is scanning s[d..] from position i. */
  lemma {:induction false} ReplaceFromDrop(s: string, oldValue: string, newValue: string, d: nat, i: nat)
    requires |oldValue| > 0 && d + i <= |s|
    ensures ReplaceFrom(s, oldValue, newValue, d + i) == ReplaceFrom(s[d..], oldValue, newValue, i)
    decreases |s| - d - i
  {
    if |s| - (d + i) < |oldValue| {
      assert s[d..][i..] == s[d + i..];
    } else if OccursAt(s, oldValue, d + i) {
      ReplaceFromDrop(s, oldValue, newValue, d, i + |oldValue|);
      DropAtMatch(s, oldValue, newValue, d, i);
    } else {
      ReplaceFromDrop(s, oldValue, newValue, d, i + 1);
      DropAtOther(s, oldValue, newValue, d, i);
    }
  }

  /** Appending is associative. */
  lemma Regroup(a: string, b: string, c: string, d: string)
    ensures a + (b + c + d) == (a + b) + c + d
  {
  }

  /**
   * The scan from i: with no occurrence between i and k and one at k, the
   * text from i to k is kept, the occurrence becomes newValue and the scan
   * resumes after it.
   */
  lemma {:induction false} ReplaceFromLeftmost(s: string, oldValue: string, newValue: string, i: nat, k: nat)
    requires |oldValue| > 0 && i <= k
    requires OccursAt(s, oldValue, k)
    requires forall j :: i <= j < k ==> !OccursAt(s, oldValue, j)
    ensures ReplaceFrom(s, oldValue, newValue, i) == s[i..k] + newValue + ReplaceFrom(s, oldValue, newValue, k + |oldValue|)
    decreases k - i
  {
    var rest := ReplaceFrom(s, oldValue, newValue, k + |oldValue|);
    if i == k {
      assert ReplaceFrom(s, oldValue, newValue, i) == newValue + rest;
      assert s[i..k] + newValue == newValue;
    } else {
      assert !OccursAt(s, oldValue, i);
      assert ReplaceFrom(s, oldValue, newValue, i) == [s[i]] + ReplaceFrom(s, oldValue, newValue, i + 1);
      ReplaceFromLeftmost(s, oldValue, newValue, i + 1, k);
      assert s[i..k] == [s[i]] + s[i + 1..k];
      Regroup([s[i]], s[i + 1..k], newValue, rest);
    }
  }

  /**
   * The leftmost occurrence is replaced and the search goes on after it:
   * with no occurrence before position k and one at k, the text before k is
   * kept, the occurrence becomes newValue and the rest is processed alone.
   */
  lemma ReplaceAllLeftmost(s: string, oldValue: string, newValue: string, k: nat)
    requires |oldValue| > 0
    requires OccursAt(s, oldValue, k)
    requires forall j :: 0 <= j < k ==> !OccursAt(s, oldValue, j)
    ensures ReplaceAll(s, oldValue, newValue) == s[..k] + newValue + ReplaceAll(s[k + |oldValue|..], oldValue, newValue)
  {
    ReplaceFromLeftmost(s, oldValue, newValue, 0, k);
    ReplaceFromDrop(s, oldValue, newValue, k + |oldValue|, 0);
  }

  /** A leading occurrence is replaced and the rest is processed on its own. */
  lemma ReplaceAllLeading(oldValue: string, rest: string, newValue: string)
    requires |oldValue| > 0
    ensures ReplaceAll(oldValue + rest, oldValue, newValue) == newValue + ReplaceAll(rest, oldValue, newValue)
  {
    var s := oldValue + rest;
    assert OccursAt(s, oldValue, 0) by {
      assert s[..|oldValue|] == oldValue;
    }
    ReplaceAllLeftmost(s, oldValue, newValue, 0);
    assert s[|oldValue|..] == rest;
  }

  /** A pattern holding a character the string lacks occurs nowhere in it. */
  lemma AbsentByCharacter(s: string, pattern: string, c: char)
    requires c in pattern && c !in s
    ensures Absent(s, pattern)
  {
  }

  /** string.Replace(oldChar, newChar). */
  function ReplaceChar(s: string, oldChar: char, newChar: char): (r: string)
    ensures |r| == |s|
    ensures forall i :: 0 <= i < |s| ==> r[i] == if s[i] == oldChar then newChar else s[i]
    ensures oldChar != newChar ==> oldChar !in r
  {
    seq(|s|, i requires 0 <= i < |s| => if s[i] == oldChar then newChar else s[i])
  }

  const Root: string := "Assets"
  const ToolFolder: string := "/ObjectPainter/"

  /** Why the property throws. */
  datatype PathError =
    | EmptyDataPath     // Directory.GetDirectories and string.Replace reject an empty path
    | NoToolDirectory   // no "bTools" directory: indexing [0] throws

  /**
   * PathToToolRoot (lines 13-27). `directories` is what
   * Directory.GetDirectories(dataPath, "bTools", AllDirectories) returns.
   * The first one has the data path removed and its backslashes turned into
   * slashes, in that order, and is put between "Assets" and "/ObjectPainter/".
   */
  function PathToToolRoot(dataPath: string, directories: seq<string>): (r: Result<string, PathError>)
    ensures r.Success? <==> |dataPath| > 0 && |directories| > 0
    ensures r == Failure(EmptyDataPath) <==> |dataPath| == 0
    ensures r.Success? ==>
              && |r.value| >= |Root| + |ToolFolder|
              && r.value[..|Root|] == Root
              && r.value[|r.value| - |ToolFolder|..] == ToolFolder
              && '\\' !in r.value
              && r.value[|Root|..|r.value| - |ToolFolder|] == ReplaceChar(ReplaceAll(directories[0], dataPath, ""), '\\', '/')
  {
    if |dataPath| == 0 then Failure(EmptyDataPath)
    else if |directories| == 0 then Failure(NoToolDirectory)
    else
      var path := directories[0];
      var path1 := ReplaceAll(path, dataPath, "");
      var path2 := ReplaceChar(path1, '\\', '/');
      var result := Root + path2 + ToolFolder;
      assert result[..|Root|] == Root;
      assert result[|result| - |ToolFolder|..] == ToolFolder;
      assert result[|Root|..|result| - |ToolFolder|] == path2;
      Success(result)
  }

  /**
   * The middle segment in the usual layout: the found directory is the data
   * path, a backslash and a relative path (nested folders included) that
   * does not contain the data path again. Removing the data path and then
   * turning backslashes into slashes leaves "/<relative>" with slashes.
   */
  lemma MiddleSegment(dataPath: string, relative: string)
    requires |dataPath| > 0
    requires Absent("\\" + relative, dataPath)
    ensures ReplaceChar(ReplaceAll(dataPath + "\\" + relative, dataPath, ""), '\\', '/') == "/" + ReplaceChar(relative, '\\', '/')
  {
    var tail := "\\" + relative;
    assert dataPath + "\\" + relative == dataPath + tail;
    ReplaceAllLeading(dataPath, tail, "");
    var middle := ReplaceChar(tail, '\\', '/');
    var expected := "/" + ReplaceChar(relative, '\\', '/');
    assert forall i :: 0 <= i < |middle| ==> middle[i] == expected[i];
  }

  /**
   * Why the order of the two replacements matters: had the backslashes been
   * turned into slashes first, a data path that holds a backslash would no
   * longer be found and would stay in the path.
   */
  lemma ReplacementOrderMatters(dataPath: string, found: string)
    requires '\\' in dataPath
    ensures ReplaceAll(ReplaceChar(found, '\\', '/'), dataPath, "") == ReplaceChar(found, '\\', '/')
  {
    AbsentByCharacter(ReplaceChar(found, '\\', '/'), dataPath, '\\');
  }

  /**
   * In the usual layout the tool root is "Assets/<relative>/ObjectPainter/",
   * with the relative path's backslashes turned into slashes.
   */
  lemma UsualLayout(dataPath: string, relative: string)
    requires |dataPath| > 0
    requires Absent("\\" + relative, dataPath)
    ensures PathToToolRoot(dataPath, [dataPath + "\\" + relative]) ==
            Success("Assets/" + ReplaceChar(relative, '\\', '/') + "/ObjectPainter/")
  {
    MiddleSegment(dataPath, relative);
    var rel := ReplaceChar(relative, '\\', '/');
    assert Root + ("/" + rel) + ToolFolder == "Assets/" + rel + "/ObjectPainter/";
  }

  /** LoadSavedBrushes' answer: an existing asset, or a new one to generate. */
  datatype Lookup<T> = Found(asset: T) | Generate

  /**
   * LoadSavedBrushes (lines 29-43): `guids` is the FindAssets result,
   * `guidToAssetPath` and `loadAssetAtPath` the asset database. The first
   * guid whose asset loads wins; a new asset is generated only when none
   * does.
   */
  method LoadSavedBrushes<T>(guids: seq<string>, guidToAssetPath: string -> string, loadAssetAtPath: string -> Nullable<T>)
    returns (r: Lookup<T>)
    ensures r.Generate? <==> forall i :: 0 <= i < |guids| ==> loadAssetAtPath(guidToAssetPath(guids[i])) == Null
    ensures r.Found? ==>
              exists i :: 0 <= i < |guids| && loadAssetAtPath(guidToAssetPath(guids[i])) == NonNull(r.asset) &&
                          forall j :: 0 <= j < i ==> loadAssetAtPath(guidToAssetPath(guids[j])) == Null
  {
    for i := 0 to |guids|
      invariant forall j :: 0 <= j < i ==> loadAssetAtPath(guidToAssetPath(guids[j])) == Null
    {
      var assetPath := guidToAssetPath(guids[i]);
      var asset := loadAssetAtPath(assetPath);
      if asset != Null {
        return Found(asset.value);
      }
    }
    return Generate;
  }
}
