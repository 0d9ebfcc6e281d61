/** The static data of the Motion X page: the image assets, the car catalog,
    the four hero images and the hero title. Everything here is fixed at
    startup and never changes. */
module Catalog {

  datatype Option<+T> = None | Some(value: T)

  /** One token per imported image asset; the model never looks inside an image. */
  datatype Image =
    | BugattiJpg | FerrariJpg | AudiA4Jpg | LamborghiniJpg | AudiR8Jpg
    | BmwI8Jpg | DefenderJpg | GWagonJpg | JaguarFPaceJpg | LandCruiserJpg
    | McLarenJpg | RangeRoverVelarJpg | RollsRoyceJpg | SupraJpg | UrusJpg

  /** A catalog entry: display name, brand (the filter category) and picture. */
  datatype Car = Car(name: string, brand: string, img: Image)

  /** The shipped catalog, in the order the page lists it. */
  const CarsData: seq<Car> := [
    Car("Audi A4", "Audi", AudiA4Jpg),
    Car("Ferrari", "Ferrari", FerrariJpg),
    Car("Audi R8", "Audi", AudiR8Jpg),
    Car("BMW i8", "BMW", BmwI8Jpg),
    Car("Bugatti", "Bugatti", BugattiJpg),
    Car("Defender", "Land Rover", DefenderJpg),
    Car("G Wagon", "Mercedes", GWagonJpg),
    Car("Jaguar F Pace", "Jaguar", JaguarFPaceJpg),
    Car("Lamborghini", "Lamborghini", LamborghiniJpg),
    Car("Land Cruiser", "Toyota", LandCruiserJpg),
    Car("McLaren", "McLaren", McLarenJpg),
    Car("Range Rover Velar", "Land Rover", RangeRoverVelarJpg),
    Car("Rolls Royce", "Rolls", RollsRoyceJpg),
    Car("Supra", "Toyota", SupraJpg),
    Car("Urus", "Lamborghini", UrusJpg)
  ]

  /** The backgrounds the hero title letters cycle through. */
  const HeroImages: seq<Image> := [BugattiJpg, FerrariJpg, AudiA4Jpg, LamborghiniJpg]

  /** The hero title, split into its characters. */
  const Title: string := "DRIVE THE FUTURE"

  /** The filter value that stands for "no filter". */
  const All: string := "All"

  /** The brand of every entry, in catalog order. */
  function Brands(cars: seq<Car>): (bs: seq<string>)
    ensures |bs| == |cars|
    ensures forall i :: 0 <= i < |cars| ==> bs[i] == cars[i].brand
  {
    seq(|cars|, i requires 0 <= i < |cars| => cars[i].brand)
  }

  /** No entry uses the sentinel "All" as its brand. */
  predicate NoBrandIsAll(cars: seq<Car>)
  {
    forall i :: 0 <= i < |cars| ==> cars[i].brand != All
  }

  lemma ShippedCatalogFacts()
    ensures |CarsData| == 15
    ensures NoBrandIsAll(CarsData)
    ensures |Title| == 16 && |HeroImages| == 4
  {
  }

  /** The brand of each shipped entry, position by position. */
  lemma CatalogBrands()
    ensures |CarsData| == 15
    ensures CarsData[0].brand == "Audi"
    ensures CarsData[1].brand == "Ferrari"
    ensures CarsData[2].brand == "Audi"
    ensures CarsData[3].brand == "BMW"
    ensures CarsData[4].brand == "Bugatti"
    ensures CarsData[5].brand == "Land Rover"
    ensures CarsData[6].brand == "Mercedes"
    ensures CarsData[7].brand == "Jaguar"
    ensures CarsData[8].brand == "Lamborghini"
    ensures CarsData[9].brand == "Toyota"
    ensures CarsData[10].brand == "McLaren"
    ensures CarsData[11].brand == "Land Rover"
    ensures CarsData[12].brand == "Rolls"
    ensures CarsData[13].brand == "Toyota"
    ensures CarsData[14].brand == "Lamborghini"
  {
  }
}
