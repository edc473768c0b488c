/**
 * The main window's list of known playlists (MainWindow in main.py): the
 * playlists it holds and the text of each row of the list widget that shows
 * them. The widget's current row is passed in where the source asks Qt for
 * it; the answers of the rename and delete dialogs are passed in too.
 */
module Window {
  import opened Wrappers
  import opened PyText
  import opened Scanner

  /**
   * What two Windows paths are compared by: WindowsPath equality ignores case,
   * so two paths are the same path exactly when their lower-cased texts agree.
   */
  function PathKey(path: string): string {
    Lower(path)
  }

  /** The path keys of a list of playlists. */
  function Paths(ps: seq<Playlist>): set<string> {
    set p | p in ps :: PathKey(p.path)
  }

  /** No path occurs twice, in any mix of cases. */
  predicate DistinctPaths(ps: seq<Playlist>) {
    forall i, j :: 0 <= i < j < |ps| ==> PathKey(ps[i].path) != PathKey(ps[j].path)
  }

  /**
   * What _add_playlists leaves in the list: each offered playlist, in input order,
   * is appended unless a playlist with its path is already held (counting the
   * ones appended before it).
   */
  function AddAll(held: seq<Playlist>, offered: seq<Playlist>): (r: seq<Playlist>)
    decreases |offered|
  {
    if offered == [] then held
    else
      var h := AddAll(held, offered[..|offered| - 1]);
      var p := offered[|offered| - 1];
      if PathKey(p.path) in Paths(h) then h else h + [p]
  }

  /** Adding only appends: the playlists held before keep their places. */
  lemma {:induction false} AddAllExtends(held: seq<Playlist>, offered: seq<Playlist>)
    ensures |AddAll(held, offered)| >= |held| && AddAll(held, offered)[..|held|] == held
    decreases |offered|
  {
    if offered != [] {
      AddAllExtends(held, offered[..|offered| - 1]);
    }
  }

  /** The paths afterwards are exactly the paths held before and the paths offered. */
  lemma {:induction false} AddAllPaths(held: seq<Playlist>, offered: seq<Playlist>)
    ensures Paths(AddAll(held, offered)) == Paths(held) + Paths(offered)
    decreases |offered|
  {
    if offered != [] {
      var init, p := offered[..|offered| - 1], offered[|offered| - 1];
      AddAllPaths(held, init);
      assert offered == init + [p];
      assert Paths(offered) == Paths(init) + {PathKey(p.path)};
      var h := AddAll(held, init);
      if PathKey(p.path) !in Paths(h) {
        assert Paths(h + [p]) == Paths(h) + {PathKey(p.path)};
      }
    }
  }

  /** Every playlist appended was offered, and no path held before is the same path as its. */
  lemma {:induction false} AddAllFromInput(held: seq<Playlist>, offered: seq<Playlist>)
    ensures forall k :: |held| <= k < |AddAll(held, offered)| ==>
      AddAll(held, offered)[k] in offered && PathKey(AddAll(held, offered)[k].path) !in Paths(held)
    decreases |offered|
  {
    if offered != [] {
      var init, p := offered[..|offered| - 1], offered[|offered| - 1];
      AddAllFromInput(held, init);
      AddAllPaths(held, init);
      var h := AddAll(held, init);
      forall k | |held| <= k < |AddAll(held, offered)|
        ensures AddAll(held, offered)[k] in offered && PathKey(AddAll(held, offered)[k].path) !in Paths(held)
      {
        if k < |h| {
          assert AddAll(held, offered)[k] == h[k];
          assert h[k] in init;
        }
      }
    }
  }

  /** Starting without duplicate paths, there are none afterwards. */
  lemma {:induction false} AddAllDistinct(held: seq<Playlist>, offered: seq<Playlist>)
    requires DistinctPaths(held)
    ensures DistinctPaths(AddAll(held, offered))
    decreases |offered|
  {
    if offered != [] {
      var init, p := offered[..|offered| - 1], offered[|offered| - 1];
      AddAllDistinct(held, init);
      var h := AddAll(held, init);
      if PathKey(p.path) !in Paths(h) {
        forall i | 0 <= i < |h|
          ensures PathKey(h[i].path) != PathKey(p.path)
        {
          assert h[i] in h;
        }
      }
    }
  }

  /** Offering two lists in turn is offering them joined. */
  lemma {:induction false} AddAllConcat(held: seq<Playlist>, a: seq<Playlist>, b: seq<Playlist>)
    ensures AddAll(held, a + b) == AddAll(AddAll(held, a), b)
    decreases |b|
  {
    if b == [] {
      assert a + b == a;
    } else {
      assert (a + b)[..|a + b| - 1] == a + b[..|b| - 1];
      AddAllConcat(held, a, b[..|b| - 1]);
    }
  }

  /** The list grows exactly when some offered playlist's path is not, in any case, a path held before. */
  lemma AddAllGrowsIff(held: seq<Playlist>, offered: seq<Playlist>)
    ensures |AddAll(held, offered)| > |held| <==> exists p :: p in offered && PathKey(p.path) !in Paths(held)
  {
    var r := AddAll(held, offered);
    AddAllExtends(held, offered);
    AddAllFromInput(held, offered);
    AddAllPaths(held, offered);
    if |r| > |held| {
      assert r[|held|] in offered && PathKey(r[|held|].path) !in Paths(held);
    } else {
      assert r == held;
      forall p | p in offered
        ensures PathKey(p.path) in Paths(held)
      {
        assert PathKey(p.path) in Paths(offered);
      }
    }
  }

  /** Offering C:\A.M3U when c:\a.m3u is held adds nothing: they are the same Windows path. */
  lemma CaseVariantNotAdded(held: seq<Playlist>, offered: seq<Playlist>)
    requires held == [Playlist("c:\\a.m3u", "a", [])] && offered == [Playlist("C:\\A.M3U", "A", [])]
    ensures AddAll(held, offered) == held
  {
    assert offered[..0] == [];
    assert PathKey(offered[0].path) == "c:\\a.m3u";
    assert PathKey(held[0].path) == "c:\\a.m3u";
    assert held[0] in held;
  }

  /** The playlists of the main window and the rows of the widget that lists them by name. */
  class MainWindow {
    var playlists: seq<Playlist>
    var rows: seq<string>

    /** Row i of the widget shows the name of playlist i. */
    predicate Valid()
      reads this
    {
      |rows| == |playlists| && forall i :: 0 <= i < |rows| ==> rows[i] == playlists[i].name
    }

    constructor ()
      ensures Valid() && playlists == [] && rows == []
    {
      playlists, rows := [], [];
    }

    /**
     * _add_playlists: append each playlist whose path (ignoring case) is not held yet,
     * showing its name in a new row; report whether anything was added.
     */
    method AddPlaylists(offered: seq<Playlist>) returns (added: bool)
      requires Valid()
      modifies this
      ensures Valid()
      ensures playlists == AddAll(old(playlists), offered)
      ensures added <==> |playlists| > |old(playlists)|
    {
      added := false;
      var i := 0;
      AddAllExtends(playlists, []);
      while i < |offered|
        invariant 0 <= i <= |offered|
        invariant Valid()
        invariant playlists == AddAll(old(playlists), offered[..i])
        invariant |playlists| >= |old(playlists)|
        invariant added <==> |playlists| > |old(playlists)|
      {
        var pl := offered[i];
        assert offered[..i + 1][..i] == offered[..i] && offered[..i + 1][i] == pl;
        if forall o :: o in playlists ==> PathKey(o.path) != PathKey(pl.path) {
          playlists := playlists + [pl];
          rows := rows + [pl.name];
          added := true;
        }
        i := i + 1;
      }
      assert offered[..i] == offered;
    }

    /** _sel_pl: the playlist at the current row, if that row holds one. */
    function SelPl(row: int): (r: Option<Playlist>)
      reads this
      ensures r != None <==> 0 <= row < |playlists|
      ensures r != None ==> r.value == playlists[row]
    {
      if 0 <= row < |playlists| then Some(playlists[row]) else None
    }

    /**
     * _rename_playlist: with a playlist selected and the dialog accepted, a
     * name that is not blank is stored stripped, in the playlist and its row.
     */
    method RenamePlaylist(row: int, ok: bool, text: string)
      requires Valid()
      modifies this
      ensures Valid()
      ensures 0 <= row < |old(playlists)| && ok && Strip(text) != [] ==>
        playlists == old(playlists)[row := old(playlists)[row].(name := Strip(text))]
      ensures !(0 <= row < |old(playlists)| && ok && Strip(text) != []) ==>
        playlists == old(playlists) && rows == old(rows)
    {
      if SelPl(row) == None {
        return;
      }
      var name := Strip(text);
      if ok && name != [] {
        playlists := playlists[row := playlists[row].(name := name)];
        rows := rows[row := name];
      }
    }

    /**
     * _delete_playlist: with a playlist selected and the question answered
     * Yes, the same row leaves the widget and the list.
     */
    method DeletePlaylist(row: int, confirmed: bool)
      requires Valid()
      modifies this
      ensures Valid()
      ensures 0 <= row < |old(playlists)| && confirmed ==>
        playlists == old(playlists)[..row] + old(playlists)[row + 1..]
      ensures !(0 <= row < |old(playlists)| && confirmed) ==> playlists == old(playlists) && rows == old(rows)
    {
      if SelPl(row) == None {
        return;
      }
      if confirmed {
        rows := rows[..row] + rows[row + 1..];
        playlists := playlists[..row] + playlists[row + 1..];
        assert forall i :: 0 <= i < |rows| ==> rows[i] == playlists[i].name by {
          forall i | 0 <= i < |rows|
            ensures rows[i] == playlists[i].name
          {
            if i >= row {
              assert rows[i] == old(rows)[i + 1];
            }
          }
        }
      }
    }
  }

  /** A name a rename stores is not blank and has no whitespace at either end. */
  lemma RenamedNameIsClean(text: string)
    requires Strip(text) != []
    ensures !IsSpace(Strip(text)[0]) && !IsSpace(Strip(text)[|Strip(text)| - 1])
    ensures Strip(Strip(text)) == Strip(text)
  {
    StripSpec(text);
    StripNoSpace(Strip(text));
  }

  /** A name of only whitespace is refused. */
  lemma BlankNameRefused(text: string)
    requires forall k :: 0 <= k < |text| ==> IsSpace(text[k])
    ensures Strip(text) == []
  {
    StripSpec(text);
  }
}
