/** `findCurrentFileBrowserPath` (src/gitMenuCommands.ts, lines 36-45): walk
    the widgets of the left side panel until one has the id `filebrowser` and
    read its path. When the iterator runs out it yields `undefined`, reading
    `.id` of that throws, and the `catch` swallows it, so the function returns
    `undefined`; that outcome is `None` here. */
module PathResolver {
  import opened Wrappers

  const FileBrowserId: string := "filebrowser"

  /** A panel widget: its id and, for the file browser, the path its model
      is showing. */
  datatype Widget = Widget(id: string, path: string)

  /** Reference definition: the path of the first file-browser widget. */
  function FirstFileBrowserPath(widgets: seq<Widget>): (r: Option<string>)
  {
    if widgets == [] then None
    else if widgets[0].id == FileBrowserId then Some(widgets[0].path)
    else FirstFileBrowserPath(widgets[1..])
  }

  /** The reference definition answers `Some(p)` exactly when a file browser
      exists, and then `p` is the path of the first one. */
  lemma {:induction false} FirstFileBrowserPathSpec(widgets: seq<Widget>)
    ensures FirstFileBrowserPath(widgets).None? <==> forall j :: 0 <= j < |widgets| ==> widgets[j].id != FileBrowserId
    ensures FirstFileBrowserPath(widgets).Some? ==>
      exists i :: 0 <= i < |widgets| && widgets[i].id == FileBrowserId && widgets[i].path == FirstFileBrowserPath(widgets).value
        && forall j :: 0 <= j < i ==> widgets[j].id != FileBrowserId
  {
    if widgets != [] && widgets[0].id != FileBrowserId {
      FirstFileBrowserPathSpec(widgets[1..]);
      var tail := widgets[1..];
      if FirstFileBrowserPath(tail).Some? {
        var i :| 0 <= i < |tail| && tail[i].id == FileBrowserId && tail[i].path == FirstFileBrowserPath(tail).value
          && forall j :: 0 <= j < i ==> tail[j].id != FileBrowserId;
        assert widgets[i + 1] == tail[i];
        assert forall j :: 0 <= j < i + 1 ==> widgets[j].id != FileBrowserId by {
          forall j | 0 <= j < i + 1 ensures widgets[j].id != FileBrowserId {
            if j > 0 { assert widgets[j] == tail[j - 1]; }
          }
        }
      } else {
        forall j | 0 <= j < |widgets| ensures widgets[j].id != FileBrowserId {
          if j > 0 { assert widgets[j] == tail[j - 1]; }
        }
      }
    }
  }

  /** The scan the source performs, one `next()` per step. It never fails:
      running off the end gives `None`. */
  method FindCurrentFileBrowserPath(widgets: seq<Widget>) returns (r: Option<string>)
    ensures r.None? <==> forall j :: 0 <= j < |widgets| ==> widgets[j].id != FileBrowserId
    ensures r.Some? ==>
              exists i :: 0 <= i < |widgets| && widgets[i].id == FileBrowserId && widgets[i].path == r.value
                          && forall j :: 0 <= j < i ==> widgets[j].id != FileBrowserId
    ensures r == FirstFileBrowserPath(widgets)
  {
    var i := 0;
    while i < |widgets| && widgets[i].id != FileBrowserId
      invariant 0 <= i <= |widgets|
      invariant forall j :: 0 <= j < i ==> widgets[j].id != FileBrowserId
      invariant FirstFileBrowserPath(widgets[i..]) == FirstFileBrowserPath(widgets)
    {
      assert widgets[i..][1..] == widgets[i + 1..];
      i := i + 1;
    }
    if i == |widgets| {
      r := None;
    } else {
      r := Some(widgets[i].path);
    }
  }
}
