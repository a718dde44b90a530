/** The world an entity or a terrain tile belongs to, as far as this model needs it: an object to refer to. */
module Worlds {

  /** A named world; its entity list, type tag and persistence are not modelled. */
  class World {
    const name: string

    constructor (name: string)
      ensures this.name == name
    {
      this.name := name;
    }
  }
}
