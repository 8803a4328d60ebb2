/**
  The protocols lesson: the `Vehicle` protocol with its two conforming
  structs `Car` and `Bicycle`, the `commute` decision, the estimates loop,
  and the `Book(title:pageCount:)` initializer added by an extension.
 */
module ProtocolsAndExtensions {

  /**
    Swift's integer division, which truncates toward zero (Dafny's `/` is
    Euclidean and differs from it on negative dividends).
   */
  function TruncDiv(a: int, b: int): (q: int)
    requires b > 0
    ensures a >= 0 ==> q * b <= a < (q + 1) * b
    ensures a < 0 ==> (q - 1) * b < a <= q * b
  {
    if a >= 0 then a / b else -((-a) / b)
  }

  /** The two types that conform to `Vehicle`. */
  datatype Vehicle = Car(currentPassengers: int) | Bicycle(currentPassengers: int)
  {
    /** The constant `name` each conforming struct declares. */
    function Name(): (name: string)
      ensures Car? ==> name == "Car"
      ensures Bicycle? ==> name == "Bicycle"
    {
      match this
      case Car(_) => "Car"
      case Bicycle(_) => "Bicycle"
    }

    /** The speed, in kilometres per hour, that `estimateTime` divides by. */
    function Speed(): (s: int)
      ensures s > 0
    {
      match this
      case Car(_) => 50
      case Bicycle(_) => 10
    }

    /**
      `estimateTime(for:)`: a car covers 50 km and a bicycle 10 km per whole
      hour counted, rounded toward zero.
     */
    function EstimateTime(distance: int): (hours: int)
      ensures distance >= 0 ==> hours * Speed() <= distance < (hours + 1) * Speed()
      ensures distance < 0 ==> (hours - 1) * Speed() < distance <= hours * Speed()
    {
      TruncDiv(distance, Speed())
    }
  }

  /** `Car()`: the default name and a single passenger. */
  function NewCar(): (v: Vehicle)
    ensures v.Car? && v.Name() == "Car" && v.currentPassengers == 1
  {
    Car(1)
  }

  /** `Bicycle()`: the default name and a single passenger. */
  function NewBicycle(): (v: Vehicle)
    ensures v.Bicycle? && v.Name() == "Bicycle" && v.currentPassengers == 1
  {
    Bicycle(1)
  }

  /** The longest estimate, in hours, that `commute` accepts. */
  const MaxCommuteHours: int := 100

  /** What `commute` does: reject the vehicle as too slow, or travel. */
  datatype CommuteDecision = TooSlow | Travel(vehicle: Vehicle, distance: int)

  /**
    `commute(distance:using:)`: the trip is made with the given vehicle
    exactly when its estimate is at most 100 hours.
   */
  function Commute(distance: int, vehicle: Vehicle): (d: CommuteDecision)
    ensures d.Travel? <==> vehicle.EstimateTime(distance) <= MaxCommuteHours
    ensures d.Travel? ==> d == Travel(vehicle, distance)
  {
    if vehicle.EstimateTime(distance) > MaxCommuteHours then TooSlow else Travel(vehicle, distance)
  }

  /**
    The decision as a distance bound: a vehicle is accepted exactly for
    distances below 101 hours' worth of its speed (5050 km by car, 1010 km
    by bicycle), so any shorter trip is accepted too.
   */
  lemma CommuteDistanceBound(distance: int, vehicle: Vehicle)
    ensures Commute(distance, vehicle).Travel? <==> distance < (MaxCommuteHours + 1) * vehicle.Speed()
  {
  }

  /** The worked examples: 100 km by car (2 hours) and 50 km by bicycle (5 hours). */
  lemma CommuteExamples()
    ensures NewCar().EstimateTime(100) == 2 && Commute(100, NewCar()) == Travel(NewCar(), 100)
    ensures NewBicycle().EstimateTime(50) == 5 && Commute(50, NewBicycle()) == Travel(NewBicycle(), 50)
  {
  }

  /** One line reported by `getTravelEstimates`: a vehicle's name and its estimate. */
  datatype Estimate = Estimate(name: string, hours: int)

  /**
    `getTravelEstimates(using:distance:)`: one estimate per vehicle, in the
    order the vehicles are given.
   */
  method GetTravelEstimates(vehicles: seq<Vehicle>, distance: int) returns (estimates: seq<Estimate>)
    ensures |estimates| == |vehicles|
    ensures forall i :: 0 <= i < |vehicles| ==>
      estimates[i] == Estimate(vehicles[i].Name(), vehicles[i].EstimateTime(distance))
  {
    estimates := [];
    for i := 0 to |vehicles|
      invariant |estimates| == i
      invariant forall k :: 0 <= k < i ==>
        estimates[k] == Estimate(vehicles[k].Name(), vehicles[k].EstimateTime(distance))
    {
      var vehicle := vehicles[i];
      var estimate := vehicle.EstimateTime(distance);
      estimates := estimates + [Estimate(vehicle.Name(), estimate)];
    }
  }

  /** The worked example: a car and a bicycle over 150 km take 3 and 15 hours. */
  method TravelEstimatesExample() returns (estimates: seq<Estimate>)
    ensures estimates == [Estimate("Car", 3), Estimate("Bicycle", 15)]
  {
    estimates := GetTravelEstimates([NewCar(), NewBicycle()], 150);
  }

  /** The `Book` struct with its memberwise fields. */
  datatype Book = Book(title: string, numberOfPages: int, readingHours: int)

  /** The pages read per hour that `Book(title:pageCount:)` assumes. */
  const PagesPerHour: int := 50

  /**
    The extension initializer `Book(title:pageCount:)`: it keeps the title
    and page count and estimates reading time at 50 pages per whole hour,
    rounded toward zero.
   */
  function BookWithPageCount(title: string, pageCount: int): (b: Book)
    ensures b.title == title && b.numberOfPages == pageCount
    ensures pageCount >= 0 ==> b.readingHours * PagesPerHour <= pageCount < (b.readingHours + 1) * PagesPerHour
    ensures pageCount < 0 ==> (b.readingHours - 1) * PagesPerHour < pageCount <= b.readingHours * PagesPerHour
  {
    Book(title, pageCount, TruncDiv(pageCount, PagesPerHour))
  }

  /**
    The memberwise `Book(title: "Atomic Habits", numberOfPages: 320,
    readingHours: 6)` is the book the extension initializer builds from 320
    pages.
   */
  lemma AtomicHabitsAgrees()
    ensures BookWithPageCount("Atomic Habits", 320) == Book("Atomic Habits", 320, 6)
  {
  }
}
