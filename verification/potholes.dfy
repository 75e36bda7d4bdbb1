/**
 The record shape of one pothole report: the properties the server's
 `/api/potholes` handler writes and the dashboard reads from the objects it
 loads. Every field holds a JavaScript value as is: nothing is converted or
 validated, and a property an object lacks reads as `Undefined`.
 */
module Potholes {
  import opened Js

  datatype Pothole = Pothole(
    id: JsValue,
    status: JsValue,
    address: JsValue,
    neighborhood: JsValue,
    councilDistrict: JsValue,
    zipCode: JsValue,
    createdAt: JsValue,
    closedAt: JsValue,
    latitude: JsValue,
    longitude: JsValue
  )
}
