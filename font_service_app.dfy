/** The font service (font_service_app.cc): font matching hands out a font
    file's path as a small integer id, the index of the path in a table that
    only grows; opening a stream maps the id back to the file. */
module FontService {
  import opened Common

  /** SkFontStyle's weight, width and slant. */
  datatype TypefaceStyle = TypefaceStyle(weight: int, width: int, slant: TypefaceSlant)

  datatype TypefaceSlant = Roman | Italic | Oblique

  /** What a default-constructed SkFontStyle carries: normal weight (400),
      normal width (5), upright. */
  const DefaultStyle := TypefaceStyle(400, 5, Roman)

  /** mojom::FontIdentity: the path's id, the face index inside a collection
      file and the path itself. */
  datatype FontIdentity = FontIdentity(id: nat, ttcIndex: int, strRepresentation: string)

  /** What the fontconfig matcher reports for a successful match. */
  datatype FontMatch = FontMatch(path: string, ttcIndex: int, family: string, style: TypefaceStyle)

  /** A base::File: invalid, or open for reading on a path. */
  datatype File = InvalidFile | OpenFile(path: string)

  /** GetFileForPath: an empty path gives an invalid file; otherwise the file
      is opened, which may fail (`openSucceeds`). */
  function GetFileForPath(path: string, openSucceeds: bool): (f: File)
    ensures f.OpenFile? <==> path != "" && openSucceeds
    ensures f.OpenFile? ==> f.path == path
  {
    if path == "" then InvalidFile
    else if openSucceeds then OpenFile(path)
    else InvalidFile
  }

  /** No path appears in the table twice. */
  predicate NoDuplicates(s: seq<string>)
  {
    forall i, j :: 0 <= i < j < |s| ==> s[i] != s[j]
  }

  class FontServiceApp {
    /** paths_: the id of a path is its index here. */
    var paths: seq<string>

    predicate Valid()
      reads this
    {
      NoDuplicates(paths)
    }

    constructor()
      ensures Valid() && paths == []
    {
      paths := [];
    }

    /** FindOrAddPath: the index of the first entry equal to `path`, appending
        `path` when it is not there yet. */
    method FindOrAddPath(path: string) returns (index: nat)
      requires Valid()
      modifies this
      ensures Valid()
      ensures index < |paths| && paths[index] == path
      ensures path in old(paths) ==> paths == old(paths) && forall k :: 0 <= k < index ==> paths[k] != path
      ensures path !in old(paths) ==> paths == old(paths) + [path] && index == |old(paths)|
    {
      var count := |paths|;
      var i := 0;
      while i < count
        invariant 0 <= i <= count
        invariant forall k :: 0 <= k < i ==> paths[k] != path
      {
        if path == paths[i] {
          return i;
        }
        i := i + 1;
      }
      paths := paths + [path];
      return count;
    }

    /** OpenStream: an id inside the table opens its path; any other id
        gives an invalid file. */
    method OpenStream(id: nat, openSucceeds: bool) returns (file: File)
      ensures id >= |paths| ==> file == InvalidFile
      ensures file.OpenFile? <==> id < |paths| && paths[id] != "" && openSucceeds
      ensures file.OpenFile? ==> file.path == paths[id]
    {
      file := InvalidFile;
      if id < |paths| {
        file := GetFileForPath(paths[id], openSucceeds);
      }
    }

    /** MatchFamilyName: `matched` is what the fontconfig interface answers.
        A failed match gives no identity, an empty family and the default
        style; a successful one gives the id of the matched file's path. */
    method MatchFamilyName(matched: Option<FontMatch>)
      returns (identity: Option<FontIdentity>, family: string, style: TypefaceStyle)
      requires Valid()
      modifies this
      ensures Valid()
      ensures matched.None? ==> identity.None? && family == "" && style == DefaultStyle && paths == old(paths)
      ensures matched.Some? ==> identity.Some? && family == matched.value.family && style == matched.value.style
      ensures matched.Some? ==> identity.value.ttcIndex == matched.value.ttcIndex
                                && identity.value.strRepresentation == matched.value.path
                                && identity.value.id < |paths| && paths[identity.value.id] == matched.value.path
      ensures matched.Some? && matched.value.path in old(paths) ==>
        paths == old(paths) && forall k :: 0 <= k < identity.value.id ==> paths[k] != matched.value.path
      ensures matched.Some? && matched.value.path !in old(paths) ==>
        paths == old(paths) + [matched.value.path] && identity.value.id == |old(paths)|
    {
      if matched.None? {
        return None, "", DefaultStyle;
      }
      var m := matched.value;
      var index := FindOrAddPath(m.path);
      identity := Some(FontIdentity(index, m.ttcIndex, m.path));
      family := m.family;
      style := m.style;
    }
  }

  /** The round trip the ids exist for: opening the id handed out for a
      non-empty path opens that very path. */
  method MatchThenOpen(app: FontServiceApp, m: FontMatch) returns (file: File)
    requires app.Valid() && m.path != ""
    modifies app
    ensures app.Valid()
    ensures file == OpenFile(m.path)
  {
    var identity, _, _ := app.MatchFamilyName(Some(m));
    file := app.OpenStream(identity.value.id, true);
  }
}
