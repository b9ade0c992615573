/** The view that follows the player (`Camera` in src/Game.py): its top-left
    corner is kept near the point that centres the window on the player. */
module View {
  import opened Geometry
  import opened Movement

  /** `WSIZE`: the window is 720 by 480 pixels. */
  const WIDTH: int := 720
  const HEIGHT: int := 480

  /** The top-left corner that centres the window on a player at p:
      `(p.x - WSIZE[0] // 2, p.y - WSIZE[1] // 2)`. */
  function CentreOn(p: Rect): (corner: Point)
    ensures corner.x + WIDTH / 2 == p.x && corner.y + HEIGHT / 2 == p.y
  {
    Point(p.x - WIDTH / 2, p.y - HEIGHT / 2)
  }

  /** One eased coordinate: `v += (target - v) / 5` lands on the exact value
      (4 * v + target) / 5, and pygame stores an integer less than one unit from
      it. Any such integer lies between the old value and the target. */
  predicate Eased(from: int, target: int, to: int) {
    && (if from <= target then from <= to <= target else target <= to <= from)
    && -5 < 5 * to - (4 * from + target) < 5
  }

  /** An eased coordinate exists for every start and target, stays put at the
      target, and gets strictly closer whenever the target is at least five
      pixels away. */
  lemma EasedProperties(from: int, target: int)
    ensures Eased(from, target, (4 * from + target) / 5)
    ensures forall to :: Eased(target, target, to) ==> to == target
    ensures forall to :: Eased(from, target, to) && (target - from >= 5 || from - target >= 5) ==>
      (if to <= target then target - to else to - target) < (if from <= target then target - from else from - target)
  {
  }

  class Camera {
    /** `rect`: the window's area in grid pixels. */
    var view: Rect
    /** `player`: the player the view follows. */
    const player: Player

    /** `Camera(game)`: a window-sized view, centred on the player at once. */
    constructor (player: Player)
      ensures this.player == player
      ensures view == Rect(player.rect.x - WIDTH / 2, player.rect.y - HEIGHT / 2, WIDTH, HEIGHT)
    {
      this.player := player;
      view := Rect(0, 0, WIDTH, HEIGHT);
      new;
      MoveToPlayer();
    }

    /** `move_to_player()`: snaps the view so that the window is centred on the
        player. */
    method MoveToPlayer()
      modifies this
      ensures view.w == old(view.w) && view.h == old(view.h)
      ensures Point(view.x, view.y) == CentreOn(player.rect)
    {
      view := view.(x := player.rect.x - WIDTH / 2);
      view := view.(y := player.rect.y - HEIGHT / 2);
    }

    /** The two easing lines of `draw()`: each coordinate moves a fifth of the
        way to the one that centres the window on the player. */
    method Ease()
      modifies this
      ensures view.w == old(view.w) && view.h == old(view.h)
      ensures Eased(old(view.x), CentreOn(player.rect).x, view.x)
      ensures Eased(old(view.y), CentreOn(player.rect).y, view.y)
      ensures Point(old(view.x), old(view.y)) == CentreOn(player.rect) ==> view == old(view)
    {
      var target := CentreOn(player.rect);
      EasedProperties(view.x, target.x);
      var x :| Eased(view.x, target.x, x);
      view := view.(x := x);
      EasedProperties(view.y, target.y);
      var y :| Eased(view.y, target.y, y);
      view := view.(y := y);
    }
  }
}
