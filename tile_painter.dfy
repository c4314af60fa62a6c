/**
 * `TilePainter` (StateFluxer/Assets/TilePainter.cs): a list of painted tiles, one per grid
 * position. `TileInstance` compares by position only, so `List.Remove` and `List.Contains` look
 * tiles up by position. The tile map drawing is left out; the colour given to the shared tile
 * asset is kept as a field.
 */
module Tiles {
  import opened Unity

  datatype Vector2Int = Vector2Int(x: int, y: int)

  datatype TileInstance = TileInstance(Position: Vector2Int, Color: UnityColor)

  /** `TileInstance.Equals`: the colour is ignored. */
  predicate SameTile(a: TileInstance, b: TileInstance) {
    a.Position == b.Position
  }

  /** `Tiles.Contains(new TileInstance(pos, c))`, whatever `c`. */
  predicate Painted(tiles: seq<TileInstance>, pos: Vector2Int) {
    exists i :: 0 <= i < |tiles| && tiles[i].Position == pos
  }

  /** No two entries share a position. */
  predicate UniquePositions(tiles: seq<TileInstance>) {
    forall i, j :: 0 <= i < j < |tiles| ==> tiles[i].Position != tiles[j].Position
  }

  /** The first index at or after `j` whose tile is at `pos`, or `|tiles|` when there is none. */
  function IndexAt(tiles: seq<TileInstance>, pos: Vector2Int, j: nat): (i: nat)
    requires j <= |tiles|
    ensures j <= i <= |tiles|
    ensures i < |tiles| ==> tiles[i].Position == pos
    ensures forall k :: j <= k < i ==> tiles[k].Position != pos
    decreases |tiles| - j
  {
    if j == |tiles| || tiles[j].Position == pos then j else IndexAt(tiles, pos, j + 1)
  }

  /** `Tiles.Remove(new TileInstance(pos, c))`: the first tile at `pos` goes, if there is one. */
  function RemoveAt(tiles: seq<TileInstance>, pos: Vector2Int): (r: seq<TileInstance>)
    ensures !Painted(tiles, pos) ==> r == tiles
    ensures Painted(tiles, pos) ==> |r| == |tiles| - 1
    ensures forall t :: t in r ==> t in tiles
  {
    var i := IndexAt(tiles, pos, 0);
    if i < |tiles| then tiles[..i] + tiles[i + 1..] else tiles
  }

  /**
   * Over a list with one tile per position, removing at `pos` leaves no tile there and keeps
   * every other tile, in order.
   */
  lemma RemoveAtClears(tiles: seq<TileInstance>, pos: Vector2Int)
    requires UniquePositions(tiles)
    ensures UniquePositions(RemoveAt(tiles, pos))
    ensures !Painted(RemoveAt(tiles, pos), pos)
    ensures forall t :: t in tiles && t.Position != pos ==> t in RemoveAt(tiles, pos)
  {
    var i := IndexAt(tiles, pos, 0);
    if i < |tiles| {
      var r := tiles[..i] + tiles[i + 1..];
      assert forall k :: 0 <= k < |r| ==> r[k] == if k < i then tiles[k] else tiles[k + 1];
      forall t | t in tiles && t.Position != pos
        ensures t in r
      {
        var k :| 0 <= k < |tiles| && tiles[k] == t;
        if k < i {
          assert r[k] == t;
        } else {
          assert r[k - 1] == t;
        }
      }
    }
  }

  /** After `SetTile`: one tile per position still, exactly one at `pos`, and it is the last. */
  lemma SetTileLeavesOneAt(tiles: seq<TileInstance>, t: TileInstance)
    requires UniquePositions(tiles)
    ensures var r := RemoveAt(tiles, t.Position) + [t];
      UniquePositions(r) && r[|r| - 1] == t
      && forall k :: 0 <= k < |r| - 1 ==> r[k].Position != t.Position
  {
    RemoveAtClears(tiles, t.Position);
  }

  class TilePainter {
    var Tiles: seq<TileInstance>
    const MyColor: UnityColor
    /** The colour last given to the shared `GenericTile`. */
    var GenericTileColor: UnityColor

    ghost predicate Valid()
      reads this
    {
      UniquePositions(Tiles)
    }

    /** `Start`: the list begins empty. */
    constructor (myColor: UnityColor, genericTileColor: UnityColor)
      ensures Valid() && Tiles == [] && MyColor == myColor && GenericTileColor == genericTileColor
    {
      Tiles := [];
      MyColor := myColor;
      GenericTileColor := genericTileColor;
    }

    /**
     * `SetTile`: the tile at `pos`, if any, is replaced by one at the end of the list carrying
     * `MyColor`; `col` only tints the shared tile asset.
     */
    method SetTile(pos: Vector2Int, col: UnityColor)
      requires Valid()
      modifies this
      ensures Valid()
      ensures Tiles == RemoveAt(old(Tiles), pos) + [TileInstance(pos, MyColor)]
      ensures Tiles[|Tiles| - 1] == TileInstance(pos, MyColor)
      ensures forall k :: 0 <= k < |Tiles| - 1 ==> Tiles[k].Position != pos
      ensures GenericTileColor == col
    {
      SetTileLeavesOneAt(Tiles, TileInstance(pos, MyColor));
      Tiles := RemoveAt(Tiles, pos);
      Tiles := Tiles + [TileInstance(pos, MyColor)];
      GenericTileColor := col;
    }

    /** `RemoveTile`: the tile at `pos` goes; the list is unchanged if there is none. */
    method RemoveTile(pos: Vector2Int)
      requires Valid()
      modifies this
      ensures Valid()
      ensures Tiles == RemoveAt(old(Tiles), pos)
      ensures !Painted(Tiles, pos)
      ensures forall t :: t in old(Tiles) && t.Position != pos ==> t in Tiles
      ensures GenericTileColor == old(GenericTileColor)
    {
      RemoveAtClears(Tiles, pos);
      Tiles := RemoveAt(Tiles, pos);
    }

    /**
     * `FixedUpdate`, given the buttons held and the cursor's grid position: the left button
     * paints an unpainted position, then the right button erases a painted one.
     */
    method FixedUpdate(leftHeld: bool, rightHeld: bool, mousePos: Vector2Int)
      requires Valid()
      modifies this
      ensures Valid()
      ensures var painted := if leftHeld && !Painted(old(Tiles), mousePos) then old(Tiles) + [TileInstance(mousePos, MyColor)]
                             else old(Tiles);
        Tiles == if rightHeld && Painted(painted, mousePos) then RemoveAt(painted, mousePos) else painted
      ensures GenericTileColor == if leftHeld && !Painted(old(Tiles), mousePos) then MyColor else old(GenericTileColor)
      ensures !leftHeld && !rightHeld ==> Tiles == old(Tiles)
      ensures leftHeld && !rightHeld ==> Painted(Tiles, mousePos)
      ensures leftHeld && !rightHeld && Painted(old(Tiles), mousePos) ==> Tiles == old(Tiles)
      ensures rightHeld ==> !Painted(Tiles, mousePos)
      ensures forall t :: t in old(Tiles) && t.Position != mousePos ==> t in Tiles
    {
      if leftHeld && !Painted(Tiles, mousePos) {
        SetTile(mousePos, MyColor);
        assert Tiles[|Tiles| - 1].Position == mousePos;
      }
      if rightHeld && Painted(Tiles, mousePos) {
        RemoveTile(mousePos);
      }
    }
  }
}
