/** Textures. Texture.h is not part of this model: a texture is represented
    by its nearest-neighbour lookup, Texture::NearestTextSample. */
module Textures {
  import opened Geometry
  import opened Colours

  datatype Texture = Texture(nearestSample: Vec3 -> Colour)
}
