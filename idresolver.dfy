/** How a `suite:start` event gets its Xray test key (lib/reporter.js,
    `onSuiteStart`, before anything is registered). */
module IdResolver {
  import opened Data
  import opened JsText

  /** The project key a tag names: `tag.name.substr(1, tag.name.search('-') - 1)`,
      the characters between index 1 and the first '-', or "" when there is
      no '-' or it is the first character. */
  function ProjectPrefix(name: string): (p: string)
    ensures ('-' !in name || name[0] == '-') ==> p == ""
    ensures '-' in name && name[0] != '-' ==>
      1 + |p| < |name| && p == name[1..1 + |p|] && name[1 + |p|] == '-' && '-' !in p
  {
    var d := Search(name, '-');
    var p := Substr(name, 1, d - 1);
    assert d >= 1 ==> name[..d] == name[..1] + name[1..d];
    p
  }

  /** Whether `tag` supplies the test key. The source passes the boolean
      `pId === projectId` to `substr` as its length, so the test is "the
      comparison holds and the name has a second character". */
  function Qualifies(tag: Tag, projectId: string): (q: bool)
    ensures q <==> tag.line != 1 && |tag.name| >= 2 && ProjectPrefix(tag.name) == projectId
  {
    var pId := ProjectPrefix(tag.name);
    tag.line != 1 && Substr(tag.name, 1, ToNumber(pId == projectId)) != ""
  }

  /** One step of the `reduce` over the tags: keep a found key, otherwise
      take this tag's name without its first character if it qualifies. */
  function TagStep(acc: Option<string>, tag: Tag, projectId: string): Option<string>
  {
    if !Truthy(acc) && Qualifies(tag, projectId) then Some(tag.name[1..]) else acc
  }

  /** `tags.reduce(TagStep, acc)`. */
  function TagsFold(acc: Option<string>, tags: seq<Tag>, projectId: string): Option<string>
    decreases tags
  {
    if tags == [] then acc else TagsFold(TagStep(acc, tags[0], projectId), tags[1..], projectId)
  }

  /** Once a key is found, the remaining tags do not change it. */
  lemma {:induction false} TagsFoldKeepsFound(acc: Option<string>, tags: seq<Tag>, projectId: string)
    requires Truthy(acc)
    ensures TagsFold(acc, tags, projectId) == acc
  {
    if tags != [] {
      TagsFoldKeepsFound(acc, tags[1..], projectId);
    }
  }

  /** The fold picks the first qualifying tag, and yields null when none
      qualifies. */
  lemma {:induction false} TagsFoldPicksFirst(tags: seq<Tag>, projectId: string)
    ensures TagsFold(None, tags, projectId).None? <==>
      forall i :: 0 <= i < |tags| ==> !Qualifies(tags[i], projectId)
    ensures forall i ::
      (0 <= i < |tags| && Qualifies(tags[i], projectId) &&
       forall j :: 0 <= j < i ==> !Qualifies(tags[j], projectId))
        ==> TagsFold(None, tags, projectId) == Some(tags[i].name[1..])
    ensures TagsFold(None, tags, projectId).Some? ==> Truthy(TagsFold(None, tags, projectId))
  {
    if tags != [] {
      var found := TagStep(None, tags[0], projectId);
      assert TagsFold(None, tags, projectId) == TagsFold(found, tags[1..], projectId);
      if Qualifies(tags[0], projectId) {
        assert found == Some(tags[0].name[1..]) && Truthy(found);
        TagsFoldKeepsFound(found, tags[1..], projectId);
      } else {
        assert found == None;
        TagsFoldPicksFirst(tags[1..], projectId);
        assert forall i :: 1 <= i < |tags| ==> tags[i] == tags[1..][i - 1];
      }
    }
  }

  /** `file.slice(file.lastIndexOf(sep) + 1)`: the part of the path after
      its last separator. */
  function BaseName(file: string, sep: char): (b: string)
    ensures sep !in b
    ensures |b| <= |file| && b == file[|file| - |b|..]
    ensures |b| < |file| ==> file[|file| - |b| - 1] == sep
  {
    file[LastIndexOf(file, sep) + 1..]
  }

  /** The key taken from the file: its base name with the first ".feature"
      removed (see BaseName and JsText.RemoveFirst). */
  function FileId(file: string, sep: char): string
  {
    RemoveFirst(BaseName(file, sep), ".feature")
  }

  /** `xrayId` of `onSuiteStart`: from the tags when there are tags and the
      event has a parent, from the file otherwise. */
  function ResolveId(ev: SuiteEvent, projectId: string, sep: char): Option<string>
  {
    if |ev.tags| > 0 && ev.parent.Some? then TagsFold(None, ev.tags, projectId)
    else Some(FileId(ev.file, sep))
  }

  /** Resolution as a whole: the first tag (in list order) not on line 1
      whose project prefix is `projectId`, minus its first character, or
      null; for a top-level suite or one without tags, the file's key. */
  lemma {:induction false} ResolveIdSpec(ev: SuiteEvent, projectId: string, sep: char)
    ensures |ev.tags| > 0 && ev.parent.Some? ==>
      && (ResolveId(ev, projectId, sep).None? <==>
            forall i :: 0 <= i < |ev.tags| ==> !Qualifies(ev.tags[i], projectId))
      && (forall i ::
            (0 <= i < |ev.tags| && Qualifies(ev.tags[i], projectId) &&
             forall j :: 0 <= j < i ==> !Qualifies(ev.tags[j], projectId))
              ==> ResolveId(ev, projectId, sep) == Some(ev.tags[i].name[1..]))
      && (ResolveId(ev, projectId, sep).Some? ==> Truthy(ResolveId(ev, projectId, sep)))
    ensures ev.parent.None? || ev.tags == [] ==>
      ResolveId(ev, projectId, sep) == Some(FileId(ev.file, sep))
  {
    if |ev.tags| > 0 && ev.parent.Some? {
      TagsFoldPicksFirst(ev.tags, projectId);
    }
  }
}
