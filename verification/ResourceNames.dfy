/** Resource names: a parent path, a slash and the id as the terminal segment. */
module ResourceNames {

  /** The length of the name up to and including its last slash. */
  function AfterLastSlash(name: string): (k: nat)
    ensures k <= |name|
    ensures forall i :: k <= i < |name| ==> name[i] != '/'
    ensures k > 0 ==> name[k - 1] == '/'
  {
    if name == "" then 0
    else if name[|name| - 1] == '/' then |name|
    else AfterLastSlash(name[..|name| - 1])
  }

  /** The terminal segment. */
  function ParseName(name: string): string {
    name[AfterLastSlash(name)..]
  }

  function MemoryName(template: string, preset: string, id: string): string {
    "templates/" + template + "/presets/" + preset + "/memories/" + id
  }

  function WikiName(template: string, id: string): string {
    "templates/" + template + "/wikis/" + id
  }

  /** The terminal segment is the id exactly when the id has no slash; parents may have any. */
  lemma TerminalSegment(parent: string, id: string)
    ensures ParseName(parent + "/" + id) == id <==> '/' !in id
  {
    var name := parent + "/" + id;
    var k := AfterLastSlash(name);
    assert name[|parent|] == '/';
    assert k > |parent|;
    assert name[|parent| + 1..] == id;
    if '/' in id {
      var i :| 0 <= i < |id| && id[i] == '/';
      assert name[|parent| + 1 + i] == '/';
      assert |ParseName(name)| < |id|;
    } else {
      assert forall j :: |parent| < j < |name| ==> name[j] == id[j - |parent| - 1];
    }
  }

  lemma ParseMemoryName(template: string, preset: string, id: string)
    ensures ParseName(MemoryName(template, preset, id)) == id <==> '/' !in id
  {
    var parent := "templates/" + template + "/presets/" + preset + "/memories";
    assert MemoryName(template, preset, id) == parent + "/" + id;
    TerminalSegment(parent, id);
  }

  lemma ParseWikiName(template: string, id: string)
    ensures ParseName(WikiName(template, id)) == id <==> '/' !in id
  {
    var parent := "templates/" + template + "/wikis";
    assert WikiName(template, id) == parent + "/" + id;
    TerminalSegment(parent, id);
  }
}
