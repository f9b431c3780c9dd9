/** From a save to the next walk: the files a save wrote are the files the walk over the includes
    comes to, with the texts that were saved. */
module SavedWalk {
  import opened Common
  import opened Text
  import opened ConfigLines
  import opened ManagedAssets
  import opened ManagedBlock
  import opened EffectivePreview
  import opened MainIncludes
  import opened SaveRecovery
  import opened SaveConfig
  import opened IncludeWalk
  import opened IncludeMeaning

  lemma PathReads(dir: string, name: string)
    requires Spaceless(dir) && name in ManagedFileNames()
    ensures Words(PathJoin(dir, name)) == [PathJoin(dir, name)]
    ensures OptionReads(Words(PathJoin(dir, name)), "-group", None)
  {
    NamesAreWords(name);
    PathIsWord(dir, name);
    assert PathJoin(dir, name) + "" == PathJoin(dir, name);
    WordsCons(PathJoin(dir, name), "");
  }

  lemma PageIsIncluded(dir: string, name: string)
    requires IsPage(name)
    ensures Include(dir, name) in PageIncludes(dir) && name in ManagedFileNames()
  {
  }

  lemma SavedMainAsks(s: Files, t: Files, main: string, dir: string, tree: Tree, from: string, name: string)
    requires MainHolds(s, t, main, dir) && Spaceless(dir) && StartsWith(dir, '/') && IsPage(name)
    requires var page := PathJoin(dir, name); page in tree.links && tree.links[page] == page
    ensures Include(dir, name) in Directives(ReadOrEmpty(t, main))
    ensures Asks(tree, from, Include(dir, name), Visit(PathJoin(dir, name), None))
  {
    PageIsIncluded(dir, name);
    PathReads(dir, name);
    InMiddle(Directives(Outside(ReadOrEmpty(s, main)).0), PageIncludes(dir),
             Directives(Outside(ReadOrEmpty(s, main)).1), Include(dir, name));
    assert PathJoin(dir, name)[0] == dir[0];
  }

  /** After a complete save into an absolute directory without blanks, a walk from the main file comes
      to every page, whatever else the main file includes; where keys tell visits apart it emits the
      page for no group, with the text that was saved. */
  lemma SavedPagesAreWalked(s: Files, t: Files, main: string, dir: string, tree: Tree, from: string, file: string,
                            items: seq<ConfigSource>, name: string)
    requires MainHolds(s, t, main, dir) && Spaceless(dir) && StartsWith(dir, '/') && IsPage(name)
    requires main == from + "/" + file && '/' !in file && file != "" && !EndsWith(from, '/')
    requires tree.texts == t && Finished(tree, Visit(main, None), items)
    requires var page := PathJoin(dir, name); page in t && page in tree.links && tree.links[page] == page
    ensures exists x :: x in items && VisitKey(VisitOf(x)) == VisitKey(Visit(PathJoin(dir, name), None))
    ensures KeysTellApart(tree, Visit(main, None)) ==>
              ConfigSource(PathJoin(dir, name), PageText(t, dir, name), None) in items
  {
    SavedMainAsks(s, t, main, dir, tree, from, name);
    assert items[0] in items && items[0].text == ReadOrEmpty(t, main);
    AskedIsWalked(tree, Visit(main, None), items, items[0], from, file, Include(dir, name),
                  Visit(PathJoin(dir, name), None));
  }
}
