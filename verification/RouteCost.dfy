/** The seven-term cost of driving one edge. */
module RouteCost {
  import opened Options
  import opened MineGraph

  datatype Weights = Weights(
    distance: real, travelTime: real, payload: real, roadCondition: real,
    gradient: real, traffic: real, safety: real)
  {
    predicate Valid() {
      && distance >= 0.0 && travelTime >= 0.0 && payload >= 0.0 && roadCondition >= 0.0
      && gradient >= 0.0 && traffic >= 0.0 && safety >= 0.0
    }
  }

  const DEFAULT_WEIGHTS := Weights(1.0, 1.0, 10.0, 50.0, 1.0, 0.1, 0.2)

  datatype EdgeCost = EdgeCost(
    total: real, distanceCost: real, timeCost: real, payloadCost: real, conditionCost: real,
    gradientCost: real, trafficCost: real, safetyCost: real,
    travelTime: real, gradient: real, distance: real)
  {
    predicate NonNegative() {
      && total >= 0.0 && distanceCost >= 0.0 && timeCost >= 0.0 && payloadCost >= 0.0 && conditionCost >= 0.0
      && gradientCost >= 0.0 && trafficCost >= 0.0 && safetyCost >= 0.0
    }
  }

  /** A power function of a non-negative base: the retarder load grows with the 1.8th power of the grade. */
  type Power = f: real -> real | forall x :: f(x) >= 0.0 witness (x => 0.0)

  function Abs(x: real): real { if x < 0.0 then -x else x }

  function Max(x: real, y: real): real { if y > x then y else x }

  function GradientCost(e: MineEdge, grad: real, ratio: real, w: Weights): real {
    if grad > 0.0 then w.gradient * e.distance * (grad / 10.0) * (0.3 + 2.5 * ratio) else 0.0
  }

  function PayloadCost(e: MineEdge, grad: real, ratio: real, w: Weights, power: Power): real {
    if grad > 0.0 then w.payload * e.distance * ratio * ((grad / 6.0) * (grad / 6.0))
    else if Abs(grad) > 7.0 && ratio > 0.3 then w.payload * e.distance * ratio * power(Abs(grad) / 7.0)
    else 0.0
  }

  /** Loaded trucks climb and descend more slowly. */
  function SpeedFactor(grad: real, ratio: real): real {
    if grad > 0.0 && ratio > 0.0 then Max(0.4, 1.0 - ratio * (grad / 20.0))
    else if grad < -8.0 && ratio > 0.5 then Max(0.45, 1.0 - ratio * (Abs(grad) / 22.0))
    else 1.0
  }

  function EffectiveSpeed(e: MineEdge, grad: real, ratio: real): (kmh: real)
    ensures kmh >= 8.0
  {
    Max(8.0, e.speedLimit * SpeedFactor(grad, ratio))
  }

  function TravelTime(e: MineEdge, grad: real, ratio: real): real {
    e.distance / (EffectiveSpeed(e, grad, ratio) / 3.6)
  }

  function TrafficCost(e: MineEdge, w: Weights): real {
    w.traffic * e.distance * (2.0 / (if e.lanes > 1 then e.lanes as real else 1.0))
  }

  function CalculateEdgeCost(e: MineEdge, grad: real, payload: real, tare: real, w: Weights, power: Power): Option<EdgeCost> {
    if e.status.Closed? then None
    else if tare + payload > e.maxWeight then None
    else
      var ratio := payload / 100.0;
      var time := TravelTime(e, grad, ratio);
      var distanceCost, timeCost := w.distance * e.distance, w.travelTime * time;
      var payloadCost, gradientCost := PayloadCost(e, grad, ratio, w, power), GradientCost(e, grad, ratio, w);
      var conditionCost := if e.status.Restricted? then w.roadCondition * 15.0 else 0.0;
      var trafficCost, safetyCost := TrafficCost(e, w), w.safety * e.riskPenalty;
      Some(EdgeCost(
        distanceCost + timeCost + payloadCost + conditionCost + gradientCost + trafficCost + safetyCost,
        distanceCost, timeCost, payloadCost, conditionCost, gradientCost, trafficCost, safetyCost,
        time, grad, e.distance))
  }

  lemma ProductNonNegative(x: real, y: real)
    requires x >= 0.0 && y >= 0.0
    ensures x * y >= 0.0
  {
  }

  lemma QuotientNonNegative(x: real, y: real)
    requires x >= 0.0 && y > 0.0
    ensures x / y >= 0.0
  {
  }

  lemma GradientCostNonNegative(e: MineEdge, grad: real, ratio: real, w: Weights)
    requires e.Valid() && w.Valid() && ratio >= 0.0
    ensures GradientCost(e, grad, ratio, w) >= 0.0
  {
    if grad > 0.0 {
      ProductNonNegative(w.gradient, e.distance);
      ProductNonNegative(w.gradient * e.distance, grad / 10.0);
      ProductNonNegative(w.gradient * e.distance * (grad / 10.0), 0.3 + 2.5 * ratio);
    }
  }

  lemma PayloadCostNonNegative(e: MineEdge, grad: real, ratio: real, w: Weights, power: Power)
    requires e.Valid() && w.Valid() && ratio >= 0.0
    ensures PayloadCost(e, grad, ratio, w, power) >= 0.0
  {
    ProductNonNegative(w.payload, e.distance);
    ProductNonNegative(w.payload * e.distance, ratio);
    if grad > 0.0 {
      ProductNonNegative(grad / 6.0, grad / 6.0);
      ProductNonNegative(w.payload * e.distance * ratio, (grad / 6.0) * (grad / 6.0));
    } else {
      ProductNonNegative(w.payload * e.distance * ratio, power(Abs(grad) / 7.0));
    }
  }

  lemma TrafficCostNonNegative(e: MineEdge, w: Weights)
    requires e.Valid() && w.Valid()
    ensures TrafficCost(e, w) >= 0.0
  {
    var lanes := if e.lanes > 1 then e.lanes as real else 1.0;
    ProductNonNegative(w.traffic, e.distance);
    QuotientNonNegative(2.0, lanes);
    ProductNonNegative(w.traffic * e.distance, 2.0 / lanes);
  }

  lemma TravelTimeNonNegative(e: MineEdge, grad: real, ratio: real)
    requires e.Valid()
    ensures TravelTime(e, grad, ratio) >= 0.0
  {
    QuotientNonNegative(e.distance, EffectiveSpeed(e, grad, ratio) / 3.6);
  }

  /** An edge can be driven exactly when it is not closed and bears the gross
      weight, and then every term is non-negative and they add up to the total. */
  lemma EdgeCostTerms(e: MineEdge, grad: real, payload: real, tare: real, w: Weights, power: Power)
    requires e.Valid() && w.Valid() && payload >= 0.0
    ensures var c := CalculateEdgeCost(e, grad, payload, tare, w, power);
            && (c.Some? <==> !e.status.Closed? && tare + payload <= e.maxWeight)
            && (c.Some? ==>
                  && c.value.NonNegative()
                  && c.value.total == c.value.distanceCost + c.value.timeCost + c.value.payloadCost + c.value.conditionCost
                                      + c.value.gradientCost + c.value.trafficCost + c.value.safetyCost)
  {
    hide GradientCost, PayloadCost, TrafficCost, TravelTime;
    var ratio := payload / 100.0;
    GradientCostNonNegative(e, grad, ratio, w);
    PayloadCostNonNegative(e, grad, ratio, w, power);
    TrafficCostNonNegative(e, w);
    TravelTimeNonNegative(e, grad, ratio);
    ProductNonNegative(w.distance, e.distance);
    ProductNonNegative(w.travelTime, TravelTime(e, grad, ratio));
    ProductNonNegative(w.safety, e.riskPenalty);
  }
}
