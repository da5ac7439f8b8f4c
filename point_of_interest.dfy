/** The Java entity `PointOfInterest`: six strings, set by its constructor. */
module PointOfInterestEntity {
  datatype PointOfInterest = PointOfInterest(
    name: string,
    displayName: string,
    description: string,
    imagePath: string,
    mapUrl: string,
    navigationUrl: string)
}
