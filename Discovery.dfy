/** Which files of the test directory are test modules, and the module path
    each is loaded from. */
module Discovery {
  import opened JsValues
  import opened Suites

  /** The characters a regular-expression `.` does not match. */
  predicate LineTerminator(ch: char) {
    ch == '\n' || ch == '\r' || ch == '\U{2028}' || ch == '\U{2029}'
  }

  /** `/^.*?Test.js/` matches `file` with its `Test` at position `i`: no line
      terminator before it, then `Test`, any one character but a line
      terminator (the dot is not escaped), and `js`. The match is
      case-sensitive and need not end the name. */
  predicate MatchesAt(file: string, i: nat) {
    && i + 7 <= |file|
    && file[i..i + 4] == "Test"
    && !LineTerminator(file[i + 4])
    && file[i + 5..i + 7] == "js"
    && forall k :: 0 <= k < i ==> !LineTerminator(file[k])
  }

  /** The lazy search of the pattern from position `i` on. */
  function MatchFrom(file: string, i: nat): (b: bool)
    requires i <= |file|
    requires forall k :: 0 <= k < i ==> !LineTerminator(file[k])
    ensures b <==> exists j: nat :: i <= j && MatchesAt(file, j)
    decreases |file| - i
  {
    if MatchesAt(file, i) then true
    else if i == |file| || LineTerminator(file[i]) then
      assert forall j: nat :: i < j ==> !MatchesAt(file, j);
      false
    else
      var b := MatchFrom(file, i + 1);
      assert forall j: nat :: i <= j && MatchesAt(file, j) ==> j == i || i + 1 <= j;
      b
  }

  /** `/^.*?Test.js/.test(file)`. */
  function IsTestFile(file: string): (b: bool)
    ensures b <==> exists j: nat :: MatchesAt(file, j)
  {
    MatchFrom(file, 0)
  }

  /** `file.substr(0, file.length - 3)`: the path `require` loads, the file
      name without its last three characters. */
  function ModulePath(file: string): (path: string)
    ensures |file| >= 3 ==> file == path + file[|file| - 3..]
    ensures |file| < 3 ==> path == []
  {
    Substr(file, 0, |file| - 3)
  }

  /** A file `<dir>/<base>Test.js` is a test module, and the suite loaded from
      it is named `<base>`. */
  lemma TestFileIsNamedAfterBase(testDir: string, base: string)
    requires forall k :: 0 <= k < |testDir| ==> !LineTerminator(testDir[k])
    requires forall k :: 0 <= k < |base| ==> !LineTerminator(base[k])
    ensures IsTestFile(testDir + "/" + base + "Test.js")
    ensures SuiteName(testDir, ModulePath(testDir + "/" + base + "Test.js")) == base
  {
    var file := testDir + "/" + base + "Test.js";
    var i := |testDir| + 1 + |base|;
    assert file[i..i + 4] == "Test";
    assert file[i + 5..i + 7] == "js";
    assert forall k :: 0 <= k < i ==> !LineTerminator(file[k]) by {
      forall k | 0 <= k < i ensures !LineTerminator(file[k]) {
        if k < |testDir| {
          assert file[k] == testDir[k];
        } else if k > |testDir| {
          assert file[k] == base[k - |testDir| - 1];
        }
      }
    }
    assert MatchesAt(file, i);
    assert ModulePath(file) == testDir + "/" + base + "Test";
  }

  /** The dot is a wildcard and the match need not end the name: a file
      `aTest_js.txt` is taken for a test module, and its module path is cut
      three characters short of the full name all the same. */
  lemma UnescapedDotMatches()
    ensures IsTestFile("t/aTest_js.txt")
    ensures ModulePath("t/aTest_js.txt") == "t/aTest_js."
  {
    assert MatchesAt("t/aTest_js.txt", 3);
  }

  /** The pattern is case-sensitive. */
  lemma LowerCaseIsNotMatched()
    ensures !IsTestFile("t/atest.js")
  {
    var file := "t/atest.js";
    forall j: nat | j + 7 <= |file|
      ensures !MatchesAt(file, j)
    {
      assert file[j..j + 4][0] == file[j] != 'T';
    }
  }
}
