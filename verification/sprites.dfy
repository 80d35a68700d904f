/** The `Sprite` record shared by every drawable object of the game. */
module Sprites {
  import opened Common

  /** A loaded pixmap; its pixels are not part of the model, only which image it is. */
  type PixMap = nat

  /** The fields of a `Sprite` at one moment. */
  datatype SpriteRec = SpriteRec(x: u16, y: u16, width: u16, height: u16, xspeed: int, yspeed: int, pixmap: PixMap)

  /** A heap-allocated `Sprite` whose position, size and pixmap are updated in place. */
  class Sprite {
    var x: u16
    var y: u16
    var width: u16
    var height: u16
    var xspeed: int
    var yspeed: int
    var pixmap: PixMap

    function Rec(): SpriteRec
      reads this
    {
      SpriteRec(x, y, width, height, xspeed, yspeed, pixmap)
    }

    constructor (r: SpriteRec)
      ensures Rec() == r
    {
      x, y, width, height := r.x, r.y, r.width, r.height;
      xspeed, yspeed, pixmap := r.xspeed, r.yspeed, r.pixmap;
    }
  }
}
