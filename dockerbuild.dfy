/** The package's types and its two small helpers (dockerbuild/dockerbuild.go). */
module DockerBuild {
  import opened Wrappers
  import opened Text

  /** One node of the exported image hierarchy: an image and the images built on it. */
  datatype BuildableImage = BuildableImage(name: string, children: seq<BuildableImage>)

  /** An image that asks for an internal parent the hierarchy never reaches. */
  datatype OrphanedImage = OrphanedImage(name: string, parentName: string)

  /** What the loader knows about one instruction file. */
  datatype Record = Record(name: string, parentName: string, filename: string, hasInternalDependencies: bool)
  {
    /** The hierarchy list the file is appended to: its parent's name when the
        parent is internal, the root list "" otherwise. */
    function Key(): string {
      if hasInternalDependencies then parentName else ""
    }
  }

  /** A loaded instruction file; the hierarchy walk sets `isBuildable` in place. */
  class Dockerfile {
    const name: string
    const parentName: string
    const filename: string
    const hasInternalDependencies: bool
    var isBuildable: bool

    constructor (name: string, parentName: string, filename: string, hasInternalDependencies: bool)
      ensures this.name == name && this.parentName == parentName
      ensures this.filename == filename && this.hasInternalDependencies == hasInternalDependencies
      ensures !isBuildable
    {
      this.name := name;
      this.parentName := parentName;
      this.filename := filename;
      this.hasInternalDependencies := hasInternalDependencies;
      isBuildable := false;
    }

    /** The immutable part of the record. */
    function Value(): Record {
      Record(name, parentName, filename, hasInternalDependencies)
    }
  }

  const ReadmeName := "readme.md"

  /** `isValidDockerfile`: hidden files and a readme, in any letter case, are not
      instruction files. The name must not be empty, as its first byte is read. */
  function IsValidDockerfile(filename: string): (valid: bool)
    requires |filename| > 0
    ensures filename[0] == '.' ==> !valid
    ensures valid <==> filename[0] != '.' &&
                       !(|filename| == |ReadmeName| && forall i :: 0 <= i < |filename| ==> LowerChar(filename[i]) == ReadmeName[i])
  {
    !(filename[0] == '.' || ToLower(filename) == ReadmeName)
  }

  lemma ReadmeSpellings()
    ensures !IsValidDockerfile("README.md") && !IsValidDockerfile("ReadMe.MD")
    ensures !IsValidDockerfile(".gitignore")
    ensures IsValidDockerfile("base") && IsValidDockerfile("readme.txt")
  {
    assert LowerChar('R') == 'r' && LowerChar('E') == 'e' && LowerChar('A') == 'a';
    assert LowerChar('D') == 'd' && LowerChar('M') == 'm';
    assert "readme.txt"[7] != ReadmeName[7];
  }

  /** `getDefaultTag`: an empty tag is replaced by the current user's name; the
      user lookup (an input here) is consulted only then, and its failure is fatal. */
  function DefaultTag(tag: string, currentUser: Result<string, string>): (r: Result<string, string>)
    ensures tag != "" ==> r == Ok(tag)
    ensures tag == "" && currentUser.Ok? ==> r == Ok(currentUser.value)
    ensures r.Err? <==> tag == "" && currentUser.Err?
  {
    if tag != "" then Ok(tag)
    else match currentUser
      case Ok(user) => Ok(user)
      case Err(e) => Err(e)
  }
}
