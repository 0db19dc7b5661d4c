/** Helpers that advanced_outline.cpp calls but does not define. Their
    definitions (arc-length reparametrisation of the spline, a width point's
    normalised position, the width interpolation between two width points)
    are not part of this model: each is a value of function type, fixed for
    one run of sync() (the spline, its loop flags and the smoothness are
    fixed there too). */
module External {
  import opened WidthPoints

  datatype Helpers = Helpers(
    /** std_to_hom(bline, pos, wplistloop, blineloop) */
    stdToHom: real -> real,
    /** hom_to_std(bline, pos, wplistloop, blineloop) */
    homToStd: real -> real,
    /** WidthPoint::get_norm_position(wplistloop) */
    normPosition: WidthPoint -> real,
    /** widthpoint_interpolate(prev, next, pos, smoothness) */
    interpolate: (WidthPoint, WidthPoint, real) -> real)
}
